/** Day 6 (aoc/d06.py; d06.py holds the same functions, `get_orbits2` being
    `get_number_of_transfers`): a map from each object to the object it
    orbits, built from "X)Y" lines, the chain of an object's ancestors, the
    total number of orbits and the number of transfers between YOU and SAN. */
module Day06 {
  import opened Wrappers
  import opened Lists

  /** A Python dict from child to parent: its keys in insertion order (an
      assignment to a present key keeps its place) and its mapping. */
  datatype Dict = Dict(keys: seq<string>, m: map<string, string>)

  predicate Distinct<T(==)>(xs: seq<T>)
  {
    forall i, j :: 0 <= i < j < |xs| ==> xs[i] != xs[j]
  }

  ghost predicate ValidDict(d: Dict)
  {
    Distinct(d.keys) && (forall k :: k in d.keys <==> k in d.m)
  }

  const EmptyDict := Dict([], map[])

  /** `m[y] = x`. */
  function Put(d: Dict, y: string, x: string): (r: Dict)
    ensures r.m == d.m[y := x]
    ensures y in d.m ==> r.keys == d.keys
    ensures y !in d.m ==> r.keys == d.keys + [y]
  {
    if y in d.m then Dict(d.keys, d.m[y := x]) else Dict(d.keys + [y], d.m[y := x])
  }

  /** An assignment keeps the keys distinct and equal to the domain. */
  lemma PutKeepsValid(d: Dict, y: string, x: string)
    requires ValidDict(d)
    ensures ValidDict(Put(d, y, x))
  {
  }

  /** Why the input is refused: `x, y = i.split(")")` on a line without
      exactly one ')' raises ValueError. */
  datatype Failure = BadLine(line: string) | NoCommonAncestor | ChainTooLong

  /** `i.split(")")` unpacked into two names: the text before and after the
      only ')'. */
  function Split(line: string): Option<(string, string)>
  {
    if Count(line, ')') != 1 then None
    else
      var i := IndexOf(line, ')');
      Some((line[..i], line[i + 1..]))
  }

  /** The loop that fills the dict from the lines, from a given dict on. */
  function Build(d: Dict, lines: seq<string>): (r: Result<Dict, Failure>)
    ensures r.Err? ==> r.error.BadLine? && r.error.line in lines
    decreases lines
  {
    if lines == [] then Ok(d)
    else match Split(lines[0])
      case None => Err(BadLine(lines[0]))
      case Some((x, y)) => Build(Put(d, y, x), lines[1..])
  }

  /** Filling a valid dict gives a valid dict: its keys stay distinct and
      equal to its domain. */
  lemma {:induction false} BuildKeepsValid(d: Dict, lines: seq<string>)
    requires ValidDict(d)
    ensures Build(d, lines).Ok? ==> ValidDict(Build(d, lines).value)
    decreases lines
  {
    if lines != [] {
      match Split(lines[0])
      case None =>
      case Some((x, y)) =>
        PutKeepsValid(d, y, x);
        BuildKeepsValid(Put(d, y, x), lines[1..]);
    }
  }

  /** `list_parents(m, k)`: the parent of `k`, its parent, and so on, nearest
      first, until an object without a parent (or with an empty name as parent,
      which Python treats as false). The source recurses for ever on a cycle;
      here at most `fuel` ancestors are followed and a longer chain is None. */
  function ListParents(m: map<string, string>, k: string, fuel: nat): (r: Option<seq<string>>)
    ensures r.Some? ==> |r.value| <= fuel
    decreases fuel
  {
    if k !in m || m[k] == "" then Some([])
    else if fuel == 0 then None
    else match ListParents(m, m[k], fuel - 1)
      case None => None
      case Some(rest) => Some([m[k]] + rest)
  }

  /** `sum(len(list_parents(m, k)) for k in m.keys())`, over the given keys. */
  function SumChains(m: map<string, string>, keys: seq<string>, fuel: nat): Option<nat>
  {
    if keys == [] then Some(0)
    else match (ListParents(m, keys[0], fuel), SumChains(m, keys[1..], fuel))
      case (Some(c), Some(n)) => Some(|c| + n)
      case _ => None
  }

  /** The search loop of `get_number_of_transfers`: the first ancestor of YOU
      that is also an ancestor of SAN, and the sum of its first positions in
      the two chains. */
  function FirstCommon(you: seq<string>, san: seq<string>): (r: Result<nat, Failure>)
    ensures r.Err? ==> r.error == NoCommonAncestor
  {
    if you == [] then Err(NoCommonAncestor)
    else if you[0] in san then Ok(IndexOf(san, you[0]))
    else match FirstCommon(you[1..], san)
      case Err(e) => Err(e)
      case Ok(n) => Ok(n + 1)
  }

  /** `get_orbits`: a bad line raises; otherwise the total is the sum of
      the chain lengths of the objects with a parent, taken over the dict's
      keys, so it fails only when some chain is longer than the fuel, and
      each chain length is part of it. */
  function Orbits(lines: seq<string>, fuel: nat): (r: Result<nat, Failure>)
    ensures Build(EmptyDict, lines).Err? ==> r == Err(Build(EmptyDict, lines).error)
    ensures Build(EmptyDict, lines).Ok? ==>
              var m := Build(EmptyDict, lines).value.m;
              && (r.Err? <==> exists k :: k in m && ListParents(m, k, fuel).None?)
              && (r.Ok? ==> forall k :: k in m ==> |ListParents(m, k, fuel).value| <= r.value)
              && (r.Ok? ==> SumChains(m, Build(EmptyDict, lines).value.keys, fuel) == Some(r.value))
  {
    match Build(EmptyDict, lines)
    case Err(e) => Err(e)
    case Ok(d) =>
      BuildKeepsValid(EmptyDict, lines);
      OrbitsCover(d, fuel);
      match SumChains(d.m, d.keys, fuel)
      case None =>
        assert d == Build(EmptyDict, lines).value;
        Err(ChainTooLong)
      case Some(n) => Ok(n)
  }

  /** `get_number_of_transfers`: a bad line raises; otherwise, with both
      ancestor chains found, the count is the index of YOU's nearest ancestor
      that SAN's chain holds plus its index there, and no common ancestor
      raises; with both chains found, those are the only outcomes. */
  function Transfers(lines: seq<string>, fuel: nat): (r: Result<nat, Failure>)
    ensures Build(EmptyDict, lines).Err? ==> r == Err(Build(EmptyDict, lines).error)
    ensures r.Ok? ==>
              && Build(EmptyDict, lines).Ok?
              && var m := Build(EmptyDict, lines).value.m;
                 && ListParents(m, "YOU", fuel).Some? && ListParents(m, "SAN", fuel).Some?
                 && var (you, san) := (ListParents(m, "YOU", fuel).value, ListParents(m, "SAN", fuel).value);
                    exists i :: 0 <= i < |you| && you[i] in san && (forall j :: 0 <= j < i ==> you[j] !in san) &&
                                r.value == i + IndexOf(san, you[i])
    ensures r == Err(NoCommonAncestor) <==>
              && Build(EmptyDict, lines).Ok?
              && var m := Build(EmptyDict, lines).value.m;
                 && ListParents(m, "YOU", fuel).Some? && ListParents(m, "SAN", fuel).Some?
                 && forall p :: p in ListParents(m, "YOU", fuel).value ==> p !in ListParents(m, "SAN", fuel).value
    ensures r == Err(ChainTooLong) <==>
              && Build(EmptyDict, lines).Ok?
              && var m := Build(EmptyDict, lines).value.m;
                 ListParents(m, "YOU", fuel).None? || ListParents(m, "SAN", fuel).None?
  {
    var d :- Build(EmptyDict, lines);
    match (ListParents(d.m, "YOU", fuel), ListParents(d.m, "SAN", fuel))
    case (Some(you), Some(san)) =>
      FirstCommonFinds(you, san);
      FirstCommon(you, san)
    case _ => Err(ChainTooLong)
  }

  /** Over the keys of a dict, the sum exists exactly when every chain of its
      domain fits in the fuel, and then it is at least each of them. */
  lemma OrbitsCover(d: Dict, fuel: nat)
    requires ValidDict(d)
    ensures SumChains(d.m, d.keys, fuel).None? <==> exists k :: k in d.m && ListParents(d.m, k, fuel).None?
    ensures SumChains(d.m, d.keys, fuel).Some? ==>
              forall k :: k in d.m ==> |ListParents(d.m, k, fuel).value| <= SumChains(d.m, d.keys, fuel).value
  {
    SumChainsCovers(d.m, d.keys, fuel);
    if SumChains(d.m, d.keys, fuel).None? {
      var k :| k in d.keys && ListParents(d.m, k, fuel).None?;
      assert k in d.m;
    }
  }

  /** The sum over some keys exists exactly when every one of their chains
      fits in the fuel, and then it is at least each chain's length. */
  lemma {:induction false} SumChainsCovers(m: map<string, string>, keys: seq<string>, fuel: nat)
    ensures SumChains(m, keys, fuel).None? <==> exists k :: k in keys && ListParents(m, k, fuel).None?
    ensures SumChains(m, keys, fuel).Some? ==>
              forall k :: k in keys ==> |ListParents(m, k, fuel).value| <= SumChains(m, keys, fuel).value
  {
    if keys != [] {
      SumChainsCovers(m, keys[1..], fuel);
      if ListParents(m, keys[0], fuel).None? {
        assert keys[0] in keys;
      } else if SumChains(m, keys[1..], fuel).None? {
        var k :| k in keys[1..] && ListParents(m, k, fuel).None?;
        assert k in keys;
      } else {
        assert forall k :: k in keys <==> k == keys[0] || k in keys[1..];
      }
    }
  }

  // ---------------------------------------------------------------------------
  // Properties

  /** Splitting is undone by joining with ')': a line splits exactly when it
      holds one ')', into the texts on either side of it. */
  lemma SplitJoin(line: string)
    ensures Split(line).Some? <==> Count(line, ')') == 1
    ensures Split(line).Some? ==>
              var (x, y) := Split(line).value;
              line == x + ")" + y && ')' !in x && ')' !in y
  {
    if Count(line, ')') == 1 {
      var i := IndexOf(line, ')');
      assert line == line[..i] + [')'] + line[i + 1..];
      CountAppend(line[..i] + [')'], line[i + 1..], ')');
      CountAppend(line[..i], [')'], ')');
    }
  }

  /** Joining two names without ')' is undone by splitting. */
  lemma JoinSplit(x: string, y: string)
    requires ')' !in x && ')' !in y
    ensures Split(x + ")" + y) == Some((x, y))
  {
    var line := x + ")" + y;
    CountAppend(x + ")", y, ')');
    CountAppend(x, ")", ')');
    assert line[|x|] == ')';
    var i := IndexOf(line, ')');
    assert i == |x|;
    assert line[..i] == x && line[i + 1..] == y;
  }

  /** The lines are applied in order: the dict after one more line is the dict
      so far with that line's assignment, so a later line for the same child
      overrides an earlier one, and a bad line fails the whole parse. */
  lemma {:induction false} BuildSnoc(d: Dict, lines: seq<string>, line: string)
    ensures Build(d, lines + [line]) ==
              match Build(d, lines)
              case Err(e) => Err(e)
              case Ok(d') => match Split(line)
                case None => Err(BadLine(line))
                case Some((x, y)) => Ok(Put(d', y, x))
    decreases lines
  {
    if lines == [] {
      assert [line] + [] == [line];
      assert [line][1..] == [];
    } else {
      assert (lines + [line])[1..] == lines[1..] + [line];
      match Split(lines[0])
      case None =>
      case Some((x, y)) => BuildSnoc(Put(d, y, x), lines[1..], line);
    }
  }

  /** Every ancestor in a chain is the parent of the one before it (the first is
      the parent of `k`), no ancestor has an empty name, and the chain ends at
      an object with no parent. */
  lemma {:induction false} ListParentsIsChain(m: map<string, string>, k: string, fuel: nat)
    requires ListParents(m, k, fuel).Some?
    ensures var c := ListParents(m, k, fuel).value;
            && (c == [] <==> k !in m || m[k] == "")
            && (c != [] ==> k in m && c[0] == m[k])
            && (forall i :: 0 <= i < |c| - 1 ==> c[i] in m && c[i + 1] == m[c[i]])
            && (forall i :: 0 <= i < |c| ==> c[i] != "")
            && (c != [] ==> c[|c| - 1] !in m || m[c[|c| - 1]] == "")
    decreases fuel
  {
    if k in m && m[k] != "" {
      ListParentsIsChain(m, m[k], fuel - 1);
      var rest := ListParents(m, m[k], fuel - 1).value;
      var c := [m[k]] + rest;
      forall i | 0 <= i < |c| - 1
        ensures c[i] in m && c[i + 1] == m[c[i]]
      {
        if i > 0 {
          assert c[i] == rest[i - 1] && c[i + 1] == rest[i];
        }
      }
    }
  }

  /** More fuel does not change a chain that was found. */
  lemma {:induction false} ListParentsFuel(m: map<string, string>, k: string, fuel: nat, more: nat)
    requires ListParents(m, k, fuel).Some? && fuel <= more
    ensures ListParents(m, k, more) == ListParents(m, k, fuel)
    decreases fuel
  {
    if k in m && m[k] != "" {
      ListParentsFuel(m, m[k], fuel - 1, more - 1);
    }
  }

  /** The transfer count is the sum of the positions of the first ancestor of
      YOU that is also an ancestor of SAN, in the two chains; the search fails
      exactly when the chains share no object. */
  lemma {:induction false} FirstCommonFinds(you: seq<string>, san: seq<string>)
    ensures FirstCommon(you, san).Err? <==> forall p :: p in you ==> p !in san
    ensures FirstCommon(you, san).Ok? ==>
              exists i :: 0 <= i < |you| && you[i] in san && (forall j :: 0 <= j < i ==> you[j] !in san) &&
                          FirstCommon(you, san).value == i + IndexOf(san, you[i])
  {
    if you != [] && you[0] !in san {
      FirstCommonFinds(you[1..], san);
      if FirstCommon(you, san).Ok? {
        var i :| 0 <= i < |you[1..]| && you[1..][i] in san && (forall j :: 0 <= j < i ==> you[1..][j] !in san) &&
                 FirstCommon(you[1..], san).value == i + IndexOf(san, you[1..][i]);
        assert you[i + 1] == you[1..][i];
        forall j | 0 <= j < i + 1
          ensures you[j] !in san
        {
          if j > 0 {
            assert you[j] == you[1..][j - 1];
          }
        }
      }
      assert forall p :: p in you ==> p == you[0] || p in you[1..];
    } else if you != [] {
      assert you[0] in san;
    }
  }

  /** The summed chain lengths count every (object, ancestor) pair once per key. */
  lemma {:induction false} SumChainsAppend(m: map<string, string>, ks: seq<string>, k: string, fuel: nat)
    requires SumChains(m, ks, fuel).Some? && ListParents(m, k, fuel).Some?
    ensures SumChains(m, ks + [k], fuel) == Some(SumChains(m, ks, fuel).value + |ListParents(m, k, fuel).value|)
  {
    if ks == [] {
      assert [k][1..] == [];
    } else {
      assert (ks + [k])[1..] == ks[1..] + [k];
      SumChainsAppend(m, ks[1..], k, fuel);
    }
  }

  /** The lines `x)y` of some (parent, child) pairs. */
  function Joined(pairs: seq<(string, string)>): (r: seq<string>)
    ensures |r| == |pairs| && forall i :: 0 <= i < |pairs| ==> r[i] == pairs[i].0 + ")" + pairs[i].1
  {
    seq(|pairs|, i requires 0 <= i < |pairs| => pairs[i].0 + ")" + pairs[i].1)
  }

  /** The assignments `m[y] = x` of the pairs from `i` on, in order. */
  function PutAll(d: Dict, pairs: seq<(string, string)>, i: nat): Dict
    decreases |pairs| - i
  {
    if i >= |pairs| then d else PutAll(Put(d, pairs[i].1, pairs[i].0), pairs, i + 1)
  }

  /** Well-formed lines fill the dict with their pairs, in order, before
      whatever lines follow them. */
  lemma {:induction false} BuildJoined(d: Dict, pairs: seq<(string, string)>, i: nat, extra: seq<string>)
    requires i <= |pairs|
    requires forall j :: 0 <= j < |pairs| ==> ')' !in pairs[j].0 && ')' !in pairs[j].1
    ensures Build(d, (Joined(pairs) + extra)[i..]) == Build(PutAll(d, pairs, i), extra)
    decreases |pairs| - i
  {
    var ls := Joined(pairs) + extra;
    if i < |pairs| {
      var (x, y) := pairs[i];
      JoinSplit(x, y);
      assert ls[i..][0] == x + ")" + y;
      assert ls[i..][1..] == ls[i + 1..];
      BuildJoined(Put(d, y, x), pairs, i + 1, extra);
    } else {
      assert ls[i..] == extra;
    }
  }

  /** The orbit example of the tests, and the dict it builds: each object
      mapped to its parent, keys in the order of the lines. */
  const OrbitLines: seq<string> :=
    ["COM)B", "B)C", "C)D", "D)E", "E)F", "B)G", "G)H", "D)I", "E)J", "J)K", "K)L"]
  const OrbitPairs: seq<(string, string)> :=
    [("COM", "B"), ("B", "C"), ("C", "D"), ("D", "E"), ("E", "F"), ("B", "G"),
     ("G", "H"), ("D", "I"), ("E", "J"), ("J", "K"), ("K", "L")]
  const OrbitKeys: seq<string> := ["B", "C", "D", "E", "F", "G", "H", "I", "J", "K", "L"]
  const OrbitMap: map<string, string> :=
    map["B" := "COM", "C" := "B", "D" := "C", "E" := "D", "F" := "E", "G" := "B",
        "H" := "G", "I" := "D", "J" := "E", "K" := "J", "L" := "K"]

  lemma OrbitLinesJoined()
    ensures OrbitLines == Joined(OrbitPairs)
  {
    assert OrbitLines[0] == OrbitPairs[0].0 + ")" + OrbitPairs[0].1;
    assert OrbitLines[1] == OrbitPairs[1].0 + ")" + OrbitPairs[1].1;
    assert OrbitLines[2] == OrbitPairs[2].0 + ")" + OrbitPairs[2].1;
    assert OrbitLines[3] == OrbitPairs[3].0 + ")" + OrbitPairs[3].1;
    assert OrbitLines[4] == OrbitPairs[4].0 + ")" + OrbitPairs[4].1;
    assert OrbitLines[5] == OrbitPairs[5].0 + ")" + OrbitPairs[5].1;
    assert OrbitLines[6] == OrbitPairs[6].0 + ")" + OrbitPairs[6].1;
    assert OrbitLines[7] == OrbitPairs[7].0 + ")" + OrbitPairs[7].1;
    assert OrbitLines[8] == OrbitPairs[8].0 + ")" + OrbitPairs[8].1;
    assert OrbitLines[9] == OrbitPairs[9].0 + ")" + OrbitPairs[9].1;
    assert OrbitLines[10] == OrbitPairs[10].0 + ")" + OrbitPairs[10].1;
  }

  /** The first six pairs of the orbit example, and the dictionary they fill. */
  const FirstPairs: seq<(string, string)> :=
    [("COM", "B"), ("B", "C"), ("C", "D"), ("D", "E"), ("E", "F"), ("B", "G")]
  const LastPairs: seq<(string, string)> :=
    [("G", "H"), ("D", "I"), ("E", "J"), ("J", "K"), ("K", "L")]
  const FirstDict: Dict :=
    Dict(["B", "C", "D", "E", "F", "G"], map["B" := "COM", "C" := "B", "D" := "C", "E" := "D", "F" := "E", "G" := "B"])

  lemma FirstPairsPut()
    ensures PutAll(EmptyDict, FirstPairs, 0) == FirstDict
  {
  }

  lemma LastPairsPut()
    ensures PutAll(FirstDict, LastPairs, 0) == Dict(OrbitKeys, OrbitMap)
  {
  }

  lemma OrbitPairsPut()
    ensures PutAll(EmptyDict, OrbitPairs, 0) == Dict(OrbitKeys, OrbitMap)
  {
    assert OrbitPairs == FirstPairs + LastPairs;
    PutAllAppend(EmptyDict, FirstPairs, LastPairs, 0);
    FirstPairsPut();
    LastPairsPut();
  }

  lemma OrbitMapHolds()
    ensures HoldsOrbits(OrbitMap)
  {
  }

  /** The orbit lines, followed by any others, build that dict first. */
  lemma BuildOrbitLines(extra: seq<string>)
    ensures Build(EmptyDict, OrbitLines + extra) == Build(Dict(OrbitKeys, OrbitMap), extra)
  {
    BuildJoined(EmptyDict, OrbitPairs, 0, extra);
    assert (OrbitLines + extra)[0..] == OrbitLines + extra;
    OrbitLinesJoined();
    OrbitPairsPut();
  }

  /** The orbits of the example, looked up one by one. */
  ghost predicate HoldsOrbits(m: map<string, string>)
  {
    && "COM" !in m
    && "B" in m && m["B"] == "COM" && "C" in m && m["C"] == "B" && "D" in m && m["D"] == "C"
    && "E" in m && m["E"] == "D" && "F" in m && m["F"] == "E" && "G" in m && m["G"] == "B"
    && "H" in m && m["H"] == "G" && "I" in m && m["I"] == "D" && "J" in m && m["J"] == "E"
    && "K" in m && m["K"] == "J" && "L" in m && m["L"] == "K"
  }

  /** In any map that holds the example's orbits, and nothing for COM, the
      ancestor chains are those of the example. */
  lemma OrbitChains(m: map<string, string>, fuel: nat)
    requires fuel >= 6
    requires HoldsOrbits(m)
    ensures ListParents(m, "B", fuel) == Some(["COM"])
    ensures ListParents(m, "C", fuel) == Some(["B", "COM"])
    ensures ListParents(m, "D", fuel) == Some(["C", "B", "COM"])
    ensures ListParents(m, "E", fuel) == Some(["D", "C", "B", "COM"])
    ensures ListParents(m, "F", fuel) == Some(["E", "D", "C", "B", "COM"])
    ensures ListParents(m, "G", fuel) == Some(["B", "COM"])
    ensures ListParents(m, "H", fuel) == Some(["G", "B", "COM"])
    ensures ListParents(m, "I", fuel) == Some(["D", "C", "B", "COM"])
    ensures ListParents(m, "J", fuel) == Some(["E", "D", "C", "B", "COM"])
    ensures ListParents(m, "K", fuel) == Some(["J", "E", "D", "C", "B", "COM"])
    ensures fuel >= 7 ==> ListParents(m, "L", fuel) == Some(["K", "J", "E", "D", "C", "B", "COM"])
  {
    assert ListParents(m, "B", 1) == Some([m["B"]] + []) && [m["B"]] + [] == ["COM"];
    assert ListParents(m, "C", 2) == Some([m["C"]] + ["COM"]) && [m["C"]] + ["COM"] == ["B", "COM"];
    assert ListParents(m, "D", 3) == Some([m["D"]] + ["B", "COM"]) && [m["D"]] + ["B", "COM"] == ["C", "B", "COM"];
    assert ListParents(m, "E", 4) == Some([m["E"]] + ["C", "B", "COM"]) && [m["E"]] + ["C", "B", "COM"] == ["D", "C", "B", "COM"];
    assert ListParents(m, "F", 5) == Some([m["F"]] + ["D", "C", "B", "COM"]) && [m["F"]] + ["D", "C", "B", "COM"] == ["E", "D", "C", "B", "COM"];
    assert ListParents(m, "G", 2) == Some([m["G"]] + ["COM"]) && [m["G"]] + ["COM"] == ["B", "COM"];
    assert ListParents(m, "H", 3) == Some([m["H"]] + ["B", "COM"]) && [m["H"]] + ["B", "COM"] == ["G", "B", "COM"];
    assert ListParents(m, "I", 4) == Some([m["I"]] + ["C", "B", "COM"]) && [m["I"]] + ["C", "B", "COM"] == ["D", "C", "B", "COM"];
    assert ListParents(m, "J", 5) == Some([m["J"]] + ["D", "C", "B", "COM"]) && [m["J"]] + ["D", "C", "B", "COM"] == ["E", "D", "C", "B", "COM"];
    assert ListParents(m, "K", 6) == Some([m["K"]] + ["E", "D", "C", "B", "COM"]) && [m["K"]] + ["E", "D", "C", "B", "COM"] == ["J", "E", "D", "C", "B", "COM"];
    assert ListParents(m, "L", 7) == Some([m["L"]] + ["J", "E", "D", "C", "B", "COM"]) && [m["L"]] + ["J", "E", "D", "C", "B", "COM"] == ["K", "J", "E", "D", "C", "B", "COM"];
    ListParentsFuel(m, "B", 1, fuel);
    ListParentsFuel(m, "C", 2, fuel);
    ListParentsFuel(m, "D", 3, fuel);
    ListParentsFuel(m, "E", 4, fuel);
    ListParentsFuel(m, "F", 5, fuel);
    ListParentsFuel(m, "G", 2, fuel);
    ListParentsFuel(m, "H", 3, fuel);
    ListParentsFuel(m, "I", 4, fuel);
    ListParentsFuel(m, "J", 5, fuel);
    ListParentsFuel(m, "K", 6, fuel);
    if fuel >= 7 {
      ListParentsFuel(m, "L", 7, fuel);
    }
  }

  /** The chain lengths of the example add up to 42. */
  /** The chains of H, I, J, K and L have 3, 4, 5, 6 and 7 objects. */
  lemma OrbitSumLast(m: map<string, string>, fuel: nat)
    requires fuel >= 7
    requires HoldsOrbits(m)
    ensures SumChains(m, OrbitKeys[6..], fuel) == Some(25)
  {
    var keys := OrbitKeys;
    OrbitChains(m, fuel);
    assert SumChains(m, keys[11..], fuel) == Some(0);
    SumChainsAt(m, keys, 10, fuel);
    SumChainsAt(m, keys, 9, fuel);
    SumChainsAt(m, keys, 8, fuel);
    SumChainsAt(m, keys, 7, fuel);
    SumChainsAt(m, keys, 6, fuel);
  }

  lemma OrbitSum(m: map<string, string>, fuel: nat)
    requires fuel >= 7
    requires HoldsOrbits(m)
    ensures SumChains(m, OrbitKeys, fuel) == Some(42)
  {
    var keys := OrbitKeys;
    OrbitSumLast(m, fuel);
    OrbitChains(m, fuel);
    SumChainsAt(m, keys, 5, fuel);
    SumChainsAt(m, keys, 4, fuel);
    SumChainsAt(m, keys, 3, fuel);
    SumChainsAt(m, keys, 2, fuel);
    SumChainsAt(m, keys, 1, fuel);
    SumChainsAt(m, keys, 0, fuel);
    assert keys[0..] == keys;
  }

  /** The sum from key `i` on is that key's chain length plus the rest. */
  lemma SumChainsAt(m: map<string, string>, keys: seq<string>, i: nat, fuel: nat)
    requires i < |keys| && ListParents(m, keys[i], fuel).Some? && SumChains(m, keys[i + 1..], fuel).Some?
    ensures SumChains(m, keys[i..], fuel) ==
              Some(|ListParents(m, keys[i], fuel).value| + SumChains(m, keys[i + 1..], fuel).value)
  {
    assert keys[i..][0] == keys[i] && keys[i..][1..] == keys[i + 1..];
  }

  /** The orbit example of the tests: 42 direct and indirect orbits. */
  lemma OrbitsExample(fuel: nat)
    requires fuel >= 7
    ensures Orbits(OrbitLines, fuel) == Ok(42)
  {
    BuildOrbitLines([]);
    assert OrbitLines + [] == OrbitLines;
    assert Build(EmptyDict, OrbitLines) == Ok(Dict(OrbitKeys, OrbitMap));
    OrbitMapHolds();
    OrbitSum(OrbitMap, fuel);
  }

  /** The transfer example of the tests adds YOU orbiting K and SAN orbiting I
      to the orbit example. */
  const TransferLines: seq<string> := OrbitLines + ["K)YOU", "I)SAN"]
  const TransferPairs: seq<(string, string)> := OrbitPairs + [("K", "YOU"), ("I", "SAN")]
  const TransferMap: map<string, string> := OrbitMap["YOU" := "K"]["SAN" := "I"]

  /** Assigning two runs of pairs is assigning the first run, then the second. */
  lemma {:induction false} PutAllAppend(d: Dict, a: seq<(string, string)>, b: seq<(string, string)>, i: nat)
    requires i <= |a|
    ensures PutAll(d, a + b, i) == PutAll(PutAll(d, a, i), b, 0)
    decreases |a| - i
  {
    if i < |a| {
      assert (a + b)[i] == a[i];
      PutAllAppend(Put(d, a[i].1, a[i].0), a, b, i + 1);
    } else {
      PutAllShift(d, a, b, 0);
    }
  }

  /** Past the first run, assigning `a + b` from `|a| + j` is assigning `b` from `j`. */
  lemma {:induction false} PutAllShift(d: Dict, a: seq<(string, string)>, b: seq<(string, string)>, j: nat)
    requires j <= |b|
    ensures PutAll(d, a + b, |a| + j) == PutAll(d, b, j)
    decreases |b| - j
  {
    if j < |b| {
      assert (a + b)[|a| + j] == b[j];
      PutAllShift(Put(d, b[j].1, b[j].0), a, b, j + 1);
    }
  }

  lemma TransferLinesJoined()
    ensures TransferLines == (Joined(TransferPairs) + [])[0..]
  {
    OrbitLinesJoined();
    assert TransferLines[11] == TransferPairs[11].0 + ")" + TransferPairs[11].1;
    assert TransferLines[12] == TransferPairs[12].0 + ")" + TransferPairs[12].1;
  }

  /** Two assignments of names not yet in the dictionary append both keys. */
  lemma PutTwoNew(d: Dict, a: seq<(string, string)>)
    requires |a| == 2 && a[0].1 !in d.m && a[1].1 !in d.m && a[0].1 != a[1].1
    ensures PutAll(d, a, 0) == Dict(d.keys + [a[0].1, a[1].1], d.m[a[0].1 := a[0].0][a[1].1 := a[1].0])
  {
    var d1 := Put(d, a[0].1, a[0].0);
    assert PutAll(d, a, 0) == PutAll(d1, a, 1) == PutAll(Put(d1, a[1].1, a[1].0), a, 2);
    assert d.keys + [a[0].1] + [a[1].1] == d.keys + [a[0].1, a[1].1];
  }

  lemma NewNames()
    ensures "YOU" !in OrbitMap && "SAN" !in OrbitMap
  {
  }

  lemma TransferPairsPut()
    ensures PutAll(EmptyDict, TransferPairs, 0) == Dict(OrbitKeys + ["YOU", "SAN"], TransferMap)
  {
    var more := [("K", "YOU"), ("I", "SAN")];
    PutAllAppend(EmptyDict, OrbitPairs, more, 0);
    OrbitPairsPut();
    NewNames();
    PutTwoNew(Dict(OrbitKeys, OrbitMap), more);
  }

  lemma BuildTransferLines()
    ensures Build(EmptyDict, TransferLines) == Ok(Dict(OrbitKeys + ["YOU", "SAN"], TransferMap))
  {
    BuildJoined(EmptyDict, TransferPairs, 0, []);
    TransferLinesJoined();
    TransferPairsPut();
  }

  lemma TransferMapHolds()
    ensures HoldsOrbits(TransferMap)
    ensures "YOU" in TransferMap && TransferMap["YOU"] == "K" && "SAN" in TransferMap && TransferMap["SAN"] == "I"
  {
  }

  /** YOU's ancestors are K, J, E, D, C, B, COM and SAN's are I, D, C, B, COM. */
  lemma TransferChains(fuel: nat)
    requires fuel >= 7
    ensures ListParents(TransferMap, "YOU", fuel) == Some(["K", "J", "E", "D", "C", "B", "COM"])
    ensures ListParents(TransferMap, "SAN", fuel) == Some(["I", "D", "C", "B", "COM"])
  {
    var m := TransferMap;
    TransferMapHolds();
    OrbitChains(m, fuel - 1);
    assert ListParents(m, "YOU", fuel) == Some([m["YOU"]] + ["J", "E", "D", "C", "B", "COM"]);
    assert [m["YOU"]] + ["J", "E", "D", "C", "B", "COM"] == ["K", "J", "E", "D", "C", "B", "COM"];
    assert ListParents(m, "SAN", fuel) == Some([m["SAN"]] + ["D", "C", "B", "COM"]);
    assert [m["SAN"]] + ["D", "C", "B", "COM"] == ["I", "D", "C", "B", "COM"];
  }

  /** The two chains first meet at D, three steps from YOU's parent and one
      from SAN's. */
  lemma FirstCommonExample()
    ensures FirstCommon(["K", "J", "E", "D", "C", "B", "COM"], ["I", "D", "C", "B", "COM"]) == Ok(4)
  {
    var you: seq<string> := ["K", "J", "E", "D", "C", "B", "COM"];
    var san: seq<string> := ["I", "D", "C", "B", "COM"];
    assert you[0] !in san && you[1] !in san && you[2] !in san;
    assert you[3..][0] == "D" && "D" in san && IndexOf(san, "D") == 1;
    assert FirstCommon(you[3..], san) == Ok(1);
    assert FirstCommon(you[2..], san) == Ok(2);
    assert you[1..][1..] == you[2..];
    assert FirstCommon(you[1..], san) == Ok(3);
  }

  /** The transfer example of the tests: 4 transfers. */
  lemma TransfersExample(fuel: nat)
    requires fuel >= 7
    ensures Transfers(TransferLines, fuel) == Ok(4)
  {
    BuildTransferLines();
    TransferChains(fuel);
    FirstCommonExample();
  }

  // ---------------------------------------------------------------------------
  // The loops as written

  /** The dict-building loop shared by `get_orbits` and
      `get_number_of_transfers`. */
  method BuildMap(lines: seq<string>) returns (r: Result<Dict, Failure>)
    ensures r == Build(EmptyDict, lines)
  {
    var d := EmptyDict;
    for i := 0 to |lines|
      invariant ValidDict(d)
      invariant Build(d, lines[i..]) == Build(EmptyDict, lines)
    {
      assert lines[i..][1..] == lines[i + 1..];
      var parts := Split(lines[i]);
      if parts.None? {
        return Err(BadLine(lines[i]));
      }
      var (x, y) := parts.value;
      PutKeepsValid(d, y, x);
      d := Put(d, y, x);
    }
    r := Ok(d);
  }

  /** The search loop of `get_number_of_transfers`. */
  method SearchCommon(you: seq<string>, san: seq<string>) returns (r: Result<nat, Failure>)
    ensures r == FirstCommon(you, san)
  {
    for i := 0 to |you|
      invariant FirstCommon(you, san) ==
                  if FirstCommon(you[i..], san).Ok? then Ok(FirstCommon(you[i..], san).value + i) else FirstCommon(you[i..], san)
      invariant forall j :: 0 <= j < i ==> you[j] !in san
    {
      assert you[i..][1..] == you[i + 1..];
      if you[i] in san {
        return Ok(IndexOf(you, you[i]) + IndexOf(san, you[i]));
      }
    }
    r := Err(NoCommonAncestor);
  }
}
