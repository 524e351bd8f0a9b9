/** Day 14 (aoc/d14.py): reactions turn input chemicals into one output
    chemical. The reactions are parsed from lines "7 A, 1 B => 1 C" into a
    dictionary keyed by output name; the ore needed for one FUEL is found by
    repeatedly replacing a chemical that no remaining reaction consumes with
    the inputs of the reaction producing it, scaled up to whole reactions,
    and merging equal names. */
module Day14 {
  import opened Wrappers
  import opened Lists

  datatype Chemical = Chemical(name: string, qty: nat)

  datatype Reaction = Reaction(inputs: seq<Chemical>, output: Chemical)

  /** What the source raises. */
  datatype Error =
    | InvalidInput(line: string)   // ValueError(f"Invalid input: {iv}")
    | Unpack(line: string)         // `raw_in, raw_out = ...` without exactly one " => "
    | StopIteration                // `next(...)` finds no free chemical
    | KeyError(key: string)        // `reactions.pop(...)` of a missing name
    | ZeroDivision                 // a reaction producing zero units
    | NotSingle(left: seq<Chemical>)
    | NotOre(chem: Chemical)

  // ---------------------------------------------------------------------------
  // Text

  /** `str.isspace` for one character, which is what `str.strip()` removes. */
  predicate IsSpace(c: char)
  {
    SpaceCode(c as int)
  }

  predicate SpaceCode(n: int)
  {
    n == 32 || 9 <= n <= 13 || 28 <= n <= 31 || n == 0x85 || n == 0xa0 || n == 0x1680 ||
    0x2000 <= n <= 0x200a || n == 0x2028 || n == 0x2029 || n == 0x202f || n == 0x205f || n == 0x3000
  }

  function StripLeft(s: string): (r: string)
    ensures |r| <= |s| && r == s[|s| - |r|..]
    ensures r == [] || !IsSpace(r[0])
    ensures forall i :: 0 <= i < |s| - |r| ==> IsSpace(s[i])
  {
    if s != [] && IsSpace(s[0]) then StripLeft(s[1..]) else s
  }

  function StripRight(s: string): (r: string)
    ensures |r| <= |s| && r == s[..|r|]
    ensures r == [] || !IsSpace(r[|r| - 1])
    ensures forall i :: |r| <= i < |s| ==> IsSpace(s[i])
  {
    if s != [] && IsSpace(s[|s| - 1]) then StripRight(s[..|s| - 1]) else s
  }

  /** `str.strip()`: `s` is the result with whitespace, and only whitespace,
      around it. */
  function Strip(s: string): (r: string)
    ensures exists i, j :: 0 <= i <= j <= |s| && r == s[i..j]
                        && (forall k :: 0 <= k < i ==> IsSpace(s[k]))
                        && (forall l :: j <= l < |s| ==> IsSpace(s[l]))
    ensures r == [] || (!IsSpace(r[0]) && !IsSpace(r[|r| - 1]))
  {
    var l := StripLeft(s);
    var r := StripRight(l);
    var i := |s| - |l|;
    assert r == s[i..i + |r|];
    r
  }

  /** `sep` occurs in `s` at position `i`. */
  predicate OccursAt(s: string, sep: string, i: nat)
  {
    i + |sep| <= |s| && s[i..i + |sep|] == sep
  }

  lemma OccursAtTail(s: string, sep: string, i: nat)
    requires |s| > 0
    ensures OccursAt(s, sep, i + 1) <==> OccursAt(s[1..], sep, i)
  {
    if i + 1 + |sep| <= |s| {
      assert s[i + 1..i + 1 + |sep|] == s[1..][i..i + |sep|];
    }
  }

  /** The first position at which `sep` occurs in `s`. */
  function Find(s: string, sep: string): (r: Option<nat>)
    requires |sep| > 0
    ensures r.Some? ==> OccursAt(s, sep, r.value)
    ensures r.Some? ==> forall i :: 0 <= i < r.value ==> !OccursAt(s, sep, i)
    ensures r.None? ==> forall i: nat :: !OccursAt(s, sep, i)
  {
    if |s| < |sep| then None
    else if s[..|sep|] == sep then Some(0)
    else
      match Find(s[1..], sep)
      case None =>
        assert forall i: nat :: !OccursAt(s, sep, i) by {
          forall i: nat ensures !OccursAt(s, sep, i) {
            if i > 0 { OccursAtTail(s, sep, i - 1); }
          }
        }
        None
      case Some(k) =>
        OccursAtTail(s, sep, k);
        assert forall i :: 0 <= i < k + 1 ==> !OccursAt(s, sep, i) by {
          forall i | 0 <= i < k + 1 ensures !OccursAt(s, sep, i) {
            if i > 0 { OccursAtTail(s, sep, i - 1); }
          }
        }
        Some(k + 1)
  }

  function Join(parts: seq<string>, sep: string): string
    requires |parts| > 0
  {
    if |parts| == 1 then parts[0] else parts[0] + sep + Join(parts[1..], sep)
  }

  /** `str.split(sep)`: the pieces between the occurrences of `sep` found
      from left to right; joining them with `sep` gives `s` back. */
  function Split(s: string, sep: string): (r: seq<string>)
    requires |sep| > 0
    ensures |r| > 0 && Join(r, sep) == s
    ensures Find(s, sep).None? <==> r == [s]
    decreases |s|
  {
    match Find(s, sep)
    case None => [s]
    case Some(i) =>
      var rest := Split(s[i + |sep|..], sep);
      JoinCons(s, sep, i, rest);
      [s[..i]] + rest
  }

  /** Cutting `s` at an occurrence of `sep` at `i`: the piece before it, then
      pieces that join back into the rest, join back into `s`. */
  lemma JoinCons(s: string, sep: string, i: nat, rest: seq<string>)
    requires OccursAt(s, sep, i) && |rest| > 0 && Join(rest, sep) == s[i + |sep|..]
    ensures |[s[..i]] + rest| > 1 && Join([s[..i]] + rest, sep) == s
  {
    var r := [s[..i]] + rest;
    assert r[0] == s[..i] && r[1..] == rest;
    assert s == s[..i] + s[i..i + |sep|] + s[i + |sep|..];
  }

  predicate IsDigit(c: char) { '0' <= c <= '9' }

  predicate IsUpper(c: char) { 'A' <= c <= 'Z' }

  /** The length of the longest prefix of `s` whose characters satisfy `p`. */
  function Run(s: string, p: char -> bool): (n: nat)
    ensures n <= |s|
    ensures forall i :: 0 <= i < n ==> p(s[i])
    ensures n == |s| || !p(s[n])
  {
    if s != [] && p(s[0]) then 1 + Run(s[1..], p) else 0
  }

  /** `int(...)` of a string of decimal digits. */
  function DecimalValue(ds: string): nat
  {
    if ds == [] then 0 else 10 * DecimalValue(ds[..|ds| - 1]) + ((ds[|ds| - 1] as int - '0' as int) % 10)
  }

  /** The first `d` characters of `t` are digits. */
  predicate DigitsUpTo(t: string, d: nat)
    requires d <= |t|
  {
    forall i :: 0 <= i < d ==> IsDigit(t[i])
  }

  /** `t` starts with `d > 0` digits, a space and an upper-case letter. */
  predicate TermAt(t: string, d: nat)
  {
    0 < d && d + 1 < |t| && DigitsUpTo(t, d) && t[d] == ' ' && IsUpper(t[d + 1])
  }

  /** `name` is a whole run of upper-case letters, the first thing in `t`
      after `d` digits and a space. */
  predicate NamedAt(t: string, d: nat, name: string)
  {
    TermAt(t, d) && |name| > 0 && d + 1 + |name| <= |t| && t[d + 1..d + 1 + |name|] == name
    && (forall k :: 0 <= k < |name| ==> IsUpper(name[k]))
    && (d + 1 + |name| == |t| || !IsUpper(t[d + 1 + |name|]))
  }

  /** Only the whole run of leading digits can be followed by the space. */
  lemma TermStartsAfterDigits(t: string)
    ensures forall e: nat :: TermAt(t, e) ==> e == Run(t, IsDigit)
  {
    var d := Run(t, IsDigit);
    forall e: nat | TermAt(t, e)
      ensures e == d
    {
      assert !IsDigit(t[e]);
    }
  }

  /** `matcher.match(t)` with `([0-9]+) ([A-Z]+)`: a run of digits, one
      space and a run of upper-case letters at the start of `t`, whatever
      follows them. The quantity is the digits' value and the name the whole
      run of letters. */
  function ParseTerm(t: string): (r: Option<Chemical>)
    ensures r.Some? <==> exists d: nat :: TermAt(t, d)
    ensures r.Some? ==> exists d: nat :: NamedAt(t, d, r.value.name) && r.value.qty == DecimalValue(t[..d])
  {
    var d := Run(t, IsDigit);
    TermStartsAfterDigits(t);
    if d == 0 || d + 1 >= |t| || t[d] != ' ' || !IsUpper(t[d + 1]) then
      None
    else
      var u := Run(t[d + 1..], IsUpper);
      var name := t[d + 1..d + 1 + u];
      assert NamedAt(t, d, name);
      Some(Chemical(name, DecimalValue(t[..d])))
  }

  // ---------------------------------------------------------------------------
  // Parsing the reactions

  /** What matching each stripped term gives, term by term. */
  function Matches(terms: seq<string>): (r: seq<Option<Chemical>>)
    ensures |r| == |terms|
  {
    seq(|terms|, i requires 0 <= i < |terms| => ParseTerm(Strip(terms[i])))
  }

  /** The loop over the matches of one line's inputs: the first that failed
      raises ValueError with the whole line, otherwise each gives one
      chemical, in order. */
  function Gather(matches: seq<Option<Chemical>>, line: string): (r: Result<seq<Chemical>, Error>)
    ensures r.Ok? ==> |r.value| == |matches|
    ensures r.Err? ==> r.error == InvalidInput(line)
  {
    if matches == [] then Ok([])
    else match matches[0]
      case None => Err(InvalidInput(line))
      case Some(c) =>
        var rest := Gather(matches[1..], line);
        if rest.Err? then Err(rest.error) else Ok([c] + rest.value)
  }

  /** Gathering succeeds exactly when every match did, and then keeps what
      each one gave. */
  lemma {:induction false} GatherSpec(matches: seq<Option<Chemical>>, line: string)
    ensures Gather(matches, line).Ok? <==> forall i :: 0 <= i < |matches| ==> matches[i].Some?
    ensures Gather(matches, line).Ok? ==>
              forall i :: 0 <= i < |matches| ==> matches[i] == Some(Gather(matches, line).value[i])
  {
    if matches != [] {
      var tail := matches[1..];
      GatherSpec(tail, line);
      assert forall i :: 1 <= i < |matches| ==> matches[i] == tail[i - 1];
    }
  }

  /** The comma-separated inputs of one line, each stripped and matched; one
      that does not match raises ValueError with the whole line. */
  function ParseInputs(terms: seq<string>, line: string): (r: Result<seq<Chemical>, Error>)
    ensures r.Ok? ==> |r.value| == |terms|
    ensures r.Err? ==> r.error == InvalidInput(line)
  {
    Gather(Matches(terms), line)
  }

  /** The inputs parse exactly when every term matches, and then input `i`
      is what term `i` gives. */
  lemma ParseInputsSpec(terms: seq<string>, line: string)
    ensures ParseInputs(terms, line).Ok? <==> forall i :: 0 <= i < |terms| ==> ParseTerm(Strip(terms[i])).Some?
    ensures ParseInputs(terms, line).Ok? ==>
              forall i :: 0 <= i < |terms| ==> ParseTerm(Strip(terms[i])) == Some(ParseInputs(terms, line).value[i])
  {
    var m := Matches(terms);
    GatherSpec(m, line);
    assert forall i :: 0 <= i < |terms| ==> m[i] == ParseTerm(Strip(terms[i]));
  }

  /** The two halves of a line around " => " read as `reaction`: input `i`
      is what the `i`-th comma-separated term of the left half gives, and the
      output is what the right half gives. */
  ghost predicate ReadsAs(parts: seq<string>, reaction: Reaction)
    requires |parts| == 2
  {
    var terms := Split(parts[0], ",");
    && |reaction.inputs| == |terms|
    && (forall i :: 0 <= i < |terms| ==> ParseTerm(Strip(terms[i])) == Some(reaction.inputs[i]))
    && ParseTerm(Strip(parts[1])) == Some(reaction.output)
  }

  /** One line "a A, b B => c C": split at " => " into exactly two parts (any
      other count fails the unpacking), the left part at "," into the inputs,
      and the right part is the output. */
  function ParseLine(line: string): (r: Result<Reaction, Error>)
    ensures |Split(line, " => ")| != 2 <==> r == Err(Unpack(line))
    ensures r.Err? ==> r.error == Unpack(line) || r.error == InvalidInput(line)
    ensures r.Ok? ==> |Split(line, " => ")| == 2 && ReadsAs(Split(line, " => "), r.value)
  {
    var parts := Split(line, " => ");
    if |parts| != 2 then Err(Unpack(line))
    else
      ParseInputsSpec(Split(parts[0], ","), line);
      var inputs :- ParseInputs(Split(parts[0], ","), line);
      match ParseTerm(Strip(parts[1]))
      case None => Err(InvalidInput(line))
      case Some(output) => Ok(Reaction(inputs, output))
  }

  /** The loop of `parse_reactions` over already parsed lines: the first line
      that failed raises, and every other line sets the entry of its output's
      name. */
  function Collect(parsed: seq<Result<Reaction, Error>>): Result<map<string, Reaction>, Error>
  {
    if parsed == [] then Ok(map[])
    else
      var before :- Collect(parsed[..|parsed| - 1]);
      var reaction :- parsed[|parsed| - 1];
      Ok(before[reaction.output.name := reaction])
  }

  function ParseLines(lines: seq<string>): (r: seq<Result<Reaction, Error>>)
    ensures |r| == |lines|
    ensures forall i :: 0 <= i < |lines| ==> r[i] == ParseLine(lines[i])
  {
    seq(|lines|, i requires 0 <= i < |lines| => ParseLine(lines[i]))
  }

  /** `parse_reactions`. */
  function ParseAll(lines: seq<string>): Result<map<string, Reaction>, Error>
  {
    Collect(ParseLines(lines))
  }

  /** Line `i` is the last one whose reaction produces `name`. */
  predicate LastProducer(parsed: seq<Result<Reaction, Error>>, i: int, name: string)
    requires forall j :: 0 <= j < |parsed| ==> parsed[j].Ok?
  {
    0 <= i < |parsed| && parsed[i].value.output.name == name &&
    forall j :: i < j < |parsed| ==> parsed[j].value.output.name != name
  }

  /** Parsing succeeds exactly when every line parses; the dictionary then has
      one entry per output name, and a later line producing the same chemical
      overrides an earlier one. */
  lemma {:induction false} CollectSpec(parsed: seq<Result<Reaction, Error>>)
    ensures Collect(parsed).Ok? <==> forall i :: 0 <= i < |parsed| ==> parsed[i].Ok?
    ensures Collect(parsed).Ok? ==>
              var m := Collect(parsed).value;
              (forall name :: name in m <==> exists i :: 0 <= i < |parsed| && parsed[i].value.output.name == name) &&
              (forall i, name :: LastProducer(parsed, i, name) ==> name in m && m[name] == parsed[i].value)
  {
    if parsed != [] {
      var n := |parsed| - 1;
      var front := parsed[..n];
      CollectSpec(front);
      assert forall i :: 0 <= i < n ==> front[i] == parsed[i];
      if Collect(parsed).Ok? {
        forall i, name | LastProducer(parsed, i, name)
          ensures name in Collect(parsed).value && Collect(parsed).value[name] == parsed[i].value
        {
          if i < n {
            assert LastProducer(front, i, name);
          }
        }
      } else if Collect(front).Ok? {
        assert !parsed[n].Ok?;
      }
    }
  }

  /** Once a prefix fails, every longer prefix fails with the same error. */
  lemma {:induction false} CollectStaysFailed(parsed: seq<Result<Reaction, Error>>, i: nat, j: nat)
    requires i <= j <= |parsed| && Collect(parsed[..i]).Err?
    ensures Collect(parsed[..j]) == Collect(parsed[..i])
    decreases j
  {
    if j > i {
      CollectStaysFailed(parsed, i, j - 1);
      assert parsed[..j][..j - 1] == parsed[..j - 1];
    }
  }

  /** A line that parses sets its output's entry in the dictionary so far. */
  lemma CollectStep(parsed: seq<Result<Reaction, Error>>, i: nat)
    requires i < |parsed| && Collect(parsed[..i]).Ok? && parsed[i].Ok?
    ensures Collect(parsed[..i + 1]) ==
              Ok(Collect(parsed[..i]).value[parsed[i].value.output.name := parsed[i].value])
  {
    assert parsed[..i + 1][..i] == parsed[..i];
  }

  /** The first line that fails decides the result of the whole loop. */
  lemma CollectFails(parsed: seq<Result<Reaction, Error>>, i: nat)
    requires i < |parsed| && Collect(parsed[..i]).Ok? && parsed[i].Err?
    ensures Collect(parsed) == Err(parsed[i].error)
  {
    assert parsed[..i + 1][..i] == parsed[..i];
    CollectStaysFailed(parsed, i + 1, |parsed|);
    assert parsed[..|parsed|] == parsed;
  }

  /** `parse_reactions`: a loop over the lines that fills a dictionary. */
  method ParseReactions(lines: seq<string>) returns (r: Result<map<string, Reaction>, Error>)
    ensures r == ParseAll(lines)
  {
    ghost var parsed := ParseLines(lines);
    var reactions := map[];
    for i := 0 to |lines|
      invariant Collect(parsed[..i]) == Ok(reactions)
    {
      var reaction := ParseLine(lines[i]);
      assert parsed[i] == reaction;
      if reaction.Err? {
        CollectFails(parsed, i);
        return Err(reaction.error);
      }
      CollectStep(parsed, i);
      reactions := reactions[reaction.value.output.name := reaction.value];
    }
    assert parsed[..|lines|] == parsed;
    r := Ok(reactions);
  }

  // ---------------------------------------------------------------------------
  // Merging chemicals by name

  /** Python's `<` on strings: lexicographic by code point. */
  predicate Below(a: string, b: string)
  {
    if a == [] then b != []
    else if b == [] then false
    else if a[0] != b[0] then a[0] < b[0]
    else Below(a[1..], b[1..])
  }

  lemma {:induction false} BelowStrict(a: string, b: string)
    ensures Below(a, b) ==> a != b && !Below(b, a)
    ensures a != b ==> Below(a, b) || Below(b, a)
  {
    if a != [] && b != [] && a[0] == b[0] {
      BelowStrict(a[1..], b[1..]);
      if a != b { assert a == [a[0]] + a[1..] && b == [b[0]] + b[1..]; }
    }
  }

  lemma {:induction false} BelowTransitive(a: string, b: string, c: string)
    requires Below(a, b) && Below(b, c)
    ensures Below(a, c)
  {
    if a != [] && a[0] == b[0] && b[0] == c[0] {
      BelowTransitive(a[1..], b[1..], c[1..]);
    }
  }

  /** Names in strictly increasing order, so each name at most once. */
  predicate SortedByName(cs: seq<Chemical>)
  {
    forall i, j :: 0 <= i < j < |cs| ==> Below(cs[i].name, cs[j].name)
  }

  function Names(cs: seq<Chemical>): set<string>
  {
    if cs == [] then {} else {cs[0].name} + Names(cs[1..])
  }

  lemma {:induction false} NamesAt(cs: seq<Chemical>, name: string)
    ensures name in Names(cs) <==> exists i :: 0 <= i < |cs| && cs[i].name == name
  {
    if cs != [] {
      NamesAt(cs[1..], name);
      if name in Names(cs[1..]) {
        var i :| 0 <= i < |cs| - 1 && cs[1..][i].name == name;
        assert cs[i + 1].name == name;
      }
      if exists i :: 0 <= i < |cs| && cs[i].name == name {
        var i :| 0 <= i < |cs| && cs[i].name == name;
        if i > 0 { assert cs[1..][i - 1].name == name; }
      }
    }
  }

  /** The summed quantity of every entry named `name`. */
  function Total(cs: seq<Chemical>, name: string): nat
  {
    if cs == [] then 0 else (if cs[0].name == name then cs[0].qty else 0) + Total(cs[1..], name)
  }

  lemma {:induction false} TotalAppend(cs: seq<Chemical>, c: Chemical, name: string)
    ensures Total(cs + [c], name) == Total(cs, name) + if c.name == name then c.qty else 0
  {
    if cs != [] {
      assert (cs + [c])[1..] == cs[1..] + [c];
      TotalAppend(cs[1..], c, name);
    }
  }

  /** In a list sorted by name, the entry named `name` holds all of it. */
  lemma {:induction false} TotalOfSorted(cs: seq<Chemical>, i: nat)
    requires SortedByName(cs) && i < |cs|
    ensures Total(cs, cs[i].name) == cs[i].qty
  {
    var name := cs[i].name;
    if i == 0 {
      assert forall j :: 1 <= j < |cs| ==> cs[j].name != name by {
        forall j | 1 <= j < |cs| ensures cs[j].name != name { BelowStrict(name, cs[j].name); }
      }
      TotalAbsent(cs[1..], name);
    } else {
      assert SortedByName(cs[1..]);
      TotalOfSorted(cs[1..], i - 1);
      BelowStrict(cs[0].name, name);
    }
  }

  lemma {:induction false} TotalAbsent(cs: seq<Chemical>, name: string)
    requires forall j :: 0 <= j < |cs| ==> cs[j].name != name
    ensures Total(cs, name) == 0
  {
    if cs != [] {
      TotalAbsent(cs[1..], name);
    }
  }

  /** Adds one chemical to a list sorted by name: to the entry of that name, or
      as a new entry in its place. */
  function Insert(acc: seq<Chemical>, c: Chemical): seq<Chemical>
  {
    if acc == [] then [c]
    else if acc[0].name == c.name then [Chemical(c.name, acc[0].qty + c.qty)] + acc[1..]
    else if Below(c.name, acc[0].name) then [c] + acc
    else [acc[0]] + Insert(acc[1..], c)
  }

  lemma {:induction false} InsertSpec(acc: seq<Chemical>, c: Chemical)
    requires SortedByName(acc)
    ensures SortedByName(Insert(acc, c))
    ensures Names(Insert(acc, c)) == Names(acc) + {c.name}
    ensures forall name :: Total(Insert(acc, c), name) == Total(acc, name) + if c.name == name then c.qty else 0
  {
    if acc == [] {
    } else if acc[0].name == c.name {
      InsertMatchingSorted(acc, c);
    } else if Below(c.name, acc[0].name) {
      InsertFrontSorted(acc, c);
    } else {
      var tail := acc[1..];
      assert SortedByName(tail);
      InsertSpec(tail, c);
      InsertLaterSorted(acc, c);
    }
  }

  /** Adding to the first entry keeps the names, so the order. */
  lemma InsertMatchingSorted(acc: seq<Chemical>, c: Chemical)
    requires SortedByName(acc) && acc != [] && acc[0].name == c.name
    ensures SortedByName(Insert(acc, c))
  {
    var r := Insert(acc, c);
    assert r[1..] == acc[1..];
    forall i, j | 0 <= i < j < |r| ensures Below(r[i].name, r[j].name) {
      assert r[i].name == acc[i].name && r[j].name == acc[j].name;
    }
  }

  /** A name below the first one goes in front. */
  lemma InsertFrontSorted(acc: seq<Chemical>, c: Chemical)
    requires SortedByName(acc) && acc != [] && acc[0].name != c.name && Below(c.name, acc[0].name)
    ensures SortedByName(Insert(acc, c))
  {
    var r := Insert(acc, c);
    assert r[1..] == acc;
    forall j | 1 <= j < |r| ensures Below(r[0].name, r[j].name) {
      if j > 1 { BelowTransitive(c.name, acc[0].name, acc[j - 1].name); }
    }
  }

  /** A name above the first one goes into the sorted tail, whose names all
      stay above the first. */
  lemma InsertLaterSorted(acc: seq<Chemical>, c: Chemical)
    requires SortedByName(acc) && acc != [] && acc[0].name != c.name && !Below(c.name, acc[0].name)
    requires SortedByName(Insert(acc[1..], c)) && Names(Insert(acc[1..], c)) == Names(acc[1..]) + {c.name}
    ensures SortedByName(Insert(acc, c))
  {
    var tail, first := acc[1..], acc[0].name;
    var rt := Insert(tail, c);
    var r := Insert(acc, c);
    assert r == [acc[0]] + rt;
    BelowStrict(c.name, first);
    forall y | y in Names(rt) ensures Below(first, y) {
      if y != c.name {
        NamesAt(tail, y);
        var k :| 0 <= k < |tail| && tail[k].name == y;
        assert acc[k + 1].name == y;
      }
    }
    ConsSorted(acc[0], rt);
  }

  /** A name below every name of a sorted list can go in front of it. */
  lemma ConsSorted(x: Chemical, cs: seq<Chemical>)
    requires SortedByName(cs) && forall y :: y in Names(cs) ==> Below(x.name, y)
    ensures SortedByName([x] + cs)
  {
    var r := [x] + cs;
    forall i, j | 0 <= i < j < |r| ensures Below(r[i].name, r[j].name) {
      assert r[j] == cs[j - 1];
      if i == 0 {
        NamesAt(cs, cs[j - 1].name);
      } else {
        assert r[i] == cs[i - 1];
      }
    }
  }

  /** The chemicals merged so far, inserted one at a time. */
  function MergeAll(cs: seq<Chemical>): seq<Chemical>
  {
    if cs == [] then [] else Insert(MergeAll(cs[..|cs| - 1]), cs[|cs| - 1])
  }

  /** `merge`: the result is sorted by name, has one entry per distinct name of
      the argument and no other, and each entry's quantity is the sum of the
      quantities given for that name. */
  lemma {:induction false} MergeSpec(cs: seq<Chemical>)
    ensures SortedByName(MergeAll(cs))
    ensures Names(MergeAll(cs)) == Names(cs)
    ensures forall name :: Total(MergeAll(cs), name) == Total(cs, name)
    ensures forall i :: 0 <= i < |MergeAll(cs)| ==> MergeAll(cs)[i].qty == Total(cs, MergeAll(cs)[i].name)
  {
    if cs != [] {
      var n := |cs| - 1;
      MergeSpec(cs[..n]);
      InsertSpec(MergeAll(cs[..n]), cs[n]);
      assert cs == cs[..n] + [cs[n]];
      forall name ensures Total(MergeAll(cs), name) == Total(cs, name) {
        TotalAppend(cs[..n], cs[n], name);
      }
      NamesAppend(cs[..n], cs[n]);
    }
    forall i | 0 <= i < |MergeAll(cs)| ensures MergeAll(cs)[i].qty == Total(cs, MergeAll(cs)[i].name) {
      TotalOfSorted(MergeAll(cs), i);
    }
  }

  lemma {:induction false} NamesAppend(cs: seq<Chemical>, c: Chemical)
    ensures Names(cs + [c]) == Names(cs) + {c.name}
  {
    if cs != [] {
      assert (cs + [c])[1..] == cs[1..] + [c];
      NamesAppend(cs[1..], c);
    }
  }

  // ---------------------------------------------------------------------------
  // Substitution

  /** Some remaining reaction has an input named `name`. */
  predicate Consumed(name: string, reactions: map<string, Reaction>)
  {
    exists k, i :: k in reactions && 0 <= i < |reactions[k].inputs| && reactions[k].inputs[i].name == name
  }

  /** The position of the first chemical that no remaining reaction consumes
      (the `next(...)` of `substitute`). */
  function FirstFree(cs: seq<Chemical>, reactions: map<string, Reaction>): (r: Option<nat>)
    ensures r.Some? ==> r.value < |cs| && !Consumed(cs[r.value].name, reactions)
    ensures r.Some? ==> forall i :: 0 <= i < r.value ==> Consumed(cs[i].name, reactions)
    ensures r.None? ==> forall i :: 0 <= i < |cs| ==> Consumed(cs[i].name, reactions)
  {
    if cs == [] then None
    else if !Consumed(cs[0].name, reactions) then Some(0)
    else match FirstFree(cs[1..], reactions)
      case None => None
      case Some(k) => Some(k + 1)
  }

  /** `[c for c in chemicals if c != chem]`. */
  function Without(cs: seq<Chemical>, chem: Chemical): (r: seq<Chemical>)
    ensures forall i :: 0 <= i < |r| ==> r[i] != chem && r[i] in cs
    ensures forall c :: c in cs && c != chem ==> c in r
  {
    if cs == [] then []
    else if cs[0] == chem then Without(cs[1..], chem)
    else [cs[0]] + Without(cs[1..], chem)
  }

  /** `math.ceil(q / d)` for a positive divisor: the fewest whole reactions
      that produce at least `q` units when one produces `d`. */
  function CeilDiv(q: nat, d: nat): (n: nat)
    requires d > 0
    ensures n * d >= q
    ensures n == 0 || (n - 1) * d < q
  {
    (q + d - 1) / d
  }

  function Scale(inputs: seq<Chemical>, ratio: nat): (r: seq<Chemical>)
    ensures |r| == |inputs|
    ensures forall i :: 0 <= i < |r| ==> r[i] == Chemical(inputs[i].name, inputs[i].qty * ratio)
  {
    if inputs == [] then [] else [Chemical(inputs[0].name, inputs[0].qty * ratio)] + Scale(inputs[1..], ratio)
  }

  /** `substitute` on the ceiling path: the new chemical list and what is left
      of the dictionary. */
  function Substitute(cs: seq<Chemical>, reactions: map<string, Reaction>): Result<(seq<Chemical>, map<string, Reaction>), Error>
  {
    match FirstFree(cs, reactions)
    case None => Err(StopIteration)
    case Some(k) =>
      var chem := cs[k];
      if chem.name !in reactions then Err(KeyError(chem.name))
      else
        var reaction := reactions[chem.name];
        if reaction.output.qty == 0 then Err(ZeroDivision)
        else
          var ratio := CeilDiv(chem.qty, reaction.output.qty);
          Ok((Without(cs, chem) + Scale(reaction.inputs, ratio), reactions - {chem.name}))
  }

  /** A substitution replaces the first chemical that no remaining reaction
      consumes: every copy of it leaves the list, its reaction leaves the
      dictionary (exactly one entry fewer), and that reaction's inputs are
      appended, scaled by the fewest whole reactions covering the quantity.
      When every chemical is still consumed it raises StopIteration, and a
      chemical without a reaction raises KeyError. */
  lemma SubstituteSpec(cs: seq<Chemical>, reactions: map<string, Reaction>)
    ensures Substitute(cs, reactions) == Err(StopIteration) <==>
              forall i :: 0 <= i < |cs| ==> Consumed(cs[i].name, reactions)
    ensures Substitute(cs, reactions).Ok? ==>
              exists k :: 0 <= k < |cs| && !Consumed(cs[k].name, reactions) &&
                (forall i :: 0 <= i < k ==> Consumed(cs[i].name, reactions)) &&
                var (next, left) := Substitute(cs, reactions).value;
                var reaction := reactions[cs[k].name];
                && cs[k].name in reactions && reaction.output.qty > 0
                && left == reactions - {cs[k].name} && |left| == |reactions| - 1
                && cs[k] !in next[..|next| - |reaction.inputs|]
                && next[|next| - |reaction.inputs|..] == Scale(reaction.inputs, CeilDiv(cs[k].qty, reaction.output.qty))
                && CeilDiv(cs[k].qty, reaction.output.qty) * reaction.output.qty >= cs[k].qty
  {
    match FirstFree(cs, reactions)
    case None =>
    case Some(k) =>
      var chem := cs[k];
      if chem.name in reactions && reactions[chem.name].output.qty > 0 {
        var reaction := reactions[chem.name];
        var next := Without(cs, chem) + Scale(reaction.inputs, CeilDiv(chem.qty, reaction.output.qty));
        assert next[..|next| - |reaction.inputs|] == Without(cs, chem);
      }
  }

  /** The `while reactions` loop of `get_ore_needed`: substitute, then merge,
      until the dictionary is empty; one reaction goes per iteration. */
  function Consume(cs: seq<Chemical>, reactions: map<string, Reaction>): Result<seq<Chemical>, Error>
    decreases |reactions|
  {
    if |reactions| == 0 then Ok(cs)
    else
      match Substitute(cs, reactions)
      case Err(e) => Err(e)
      case Ok((next, left)) =>
        SubstituteSpec(cs, reactions);
        Consume(MergeAll(next), left)
  }

  /** `get_ore_needed` (ceiling path): pops FUEL, consumes every other reaction,
      and succeeds only with exactly one chemical left and that one ORE. */
  function OreNeeded(reactions: map<string, Reaction>): (r: Result<nat, Error>)
    ensures "FUEL" !in reactions ==> r == Err(KeyError("FUEL"))
    ensures r.Ok? ==>
              && "FUEL" in reactions
              && Consume(reactions["FUEL"].inputs, reactions - {"FUEL"}) == Ok([Chemical("ORE", r.value)])
  {
    if "FUEL" !in reactions then Err(KeyError("FUEL"))
    else
      var left :- Consume(reactions["FUEL"].inputs, reactions - {"FUEL"});
      if |left| != 1 then Err(NotSingle(left))
      else if left[0].name != "ORE" then Err(NotOre(left[0]))
      else
        assert left == [Chemical("ORE", left[0].qty)];
        Ok(left[0].qty)
  }

  /** `get_ore_needed` as written, with its loop over the dictionary. */
  method GetOreNeeded(reactions: map<string, Reaction>) returns (r: Result<nat, Error>)
    ensures r == OreNeeded(reactions)
  {
    if "FUEL" !in reactions {
      return Err(KeyError("FUEL"));
    }
    var chemicals := reactions["FUEL"].inputs;
    var left := reactions - {"FUEL"};
    while |left| > 0
      invariant Consume(chemicals, left) == Consume(reactions["FUEL"].inputs, reactions - {"FUEL"})
      decreases |left|
    {
      var s := Substitute(chemicals, left);
      if s.Err? {
        return Err(s.error);
      }
      SubstituteSpec(chemicals, left);
      chemicals := MergeAll(s.value.0);
      left := s.value.1;
    }
    if |chemicals| != 1 {
      return Err(NotSingle(chemicals));
    }
    if chemicals[0].name != "ORE" {
      return Err(NotOre(chemicals[0]));
    }
    r := Ok(chemicals[0].qty);
  }

  /** Two reactions: 2 A make one FUEL, and 3 ORE make 2 A. One reaction of
      each is needed, so one FUEL takes 3 ORE. */
  lemma OreNeededExample(reactions: map<string, Reaction>)
    requires reactions == map["FUEL" := Reaction([Chemical("A", 2)], Chemical("FUEL", 1)),
                              "A" := Reaction([Chemical("ORE", 3)], Chemical("A", 2))]
    ensures OreNeeded(reactions) == Ok(3)
  {
    var left := reactions - {"FUEL"};
    assert "A" != "FUEL";
    assert left == map["A" := Reaction([Chemical("ORE", 3)], Chemical("A", 2))];
    assert !Consumed("A", left);
    assert FirstFree([Chemical("A", 2)], left) == Some(0);
    assert left - {"A"} == map[];
    assert CeilDiv(2, 2) == 1;
    assert Without([Chemical("A", 2)], Chemical("A", 2)) == [];
    assert Scale([Chemical("ORE", 3)], 1) == [Chemical("ORE", 3)];
    assert [] + [Chemical("ORE", 3)] == [Chemical("ORE", 3)];
    assert Substitute([Chemical("A", 2)], left) == Ok(([Chemical("ORE", 3)], map[]));
    assert MergeAll([Chemical("ORE", 3)]) == [Chemical("ORE", 3)] by {
      assert [Chemical("ORE", 3)][..0] == [];
    }
    assert Consume(MergeAll([Chemical("ORE", 3)]), map[]) == Ok([Chemical("ORE", 3)]);
    assert Consume([Chemical("A", 2)], left) == Ok([Chemical("ORE", 3)]);
  }
}
