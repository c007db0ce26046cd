/** The Wikidata linker: `wd_string_search` and `get_types`, which classify
    search candidates by their types and pick the hits, and the string
    helpers around them (`remove_prefix`, `wd_entity_id`, `encode_string`,
    the alias parsing of `get_ladw`, `summary1`/`summary`).

    The search service and the SPARQL type-closure query are inputs: the
    candidate titles in search order, and a function giving the closure
    rows of a candidate id. */
module WdSearch {
  import opened Wrappers
  import opened PyStr
  import EntityTypes

  // ---------------------------------------------------------------------
  // Prefixes and entity ids

  const EntityPrefix: string := "http://www.wikidata.org/entity/"

  /** `remove_prefix`: the text after `prefix` when it starts with it. */
  function RemovePrefix(text: string, prefix: string): (r: string)
    ensures StartsWith(text, prefix) ==> prefix + r == text
    ensures !StartsWith(text, prefix) ==> r == text
  {
    if StartsWith(text, prefix) then text[|prefix|..] else text
  }

  /** Putting a prefix on and taking it off again gives the text back. */
  lemma RemovePrefixInverse(prefix: string, t: string)
    ensures RemovePrefix(prefix + t, prefix) == t
  {
    assert (prefix + t)[..|prefix|] == prefix;
  }

  /** The piece `s.split(p)[1]` keeps of the text after the separator: up
      to the first occurrence of `p`, or all of it. It is a start of the
      text, free of `p`, and followed by `p` whenever `p` occurs. */
  lemma {:induction false} CutAtFirst(rest: string, p: string)
    requires p != []
    ensures var k := Find(rest, p);
      var r := if k == -1 then rest else rest[..k];
      && StartsWith(rest, r)
      && !Contains(r, p)
      && (Contains(rest, p) ==> OccursAt(rest, p, |r|))
  {
    var k := Find(rest, p);
    var r := if k == -1 then rest else rest[..k];
    forall j | 0 <= j <= |r| - |p| ensures !OccursAt(r, p, j) {
      if OccursAt(r, p, j) {
        assert rest[j..j + |p|] == r[j..j + |p|];
        assert OccursAt(rest, p, j);
      }
    }
  }

  /** `wd_entity_id`: for an entity URI, `url.split(prefix)[1]`, the text
      after the prefix up to the next occurrence of the prefix. */
  function WdEntityId(url: string): (r: string)
    ensures !StartsWith(url, EntityPrefix) ==> r == url
    ensures StartsWith(url, EntityPrefix) ==>
      StartsWith(url[|EntityPrefix|..], r) && !Contains(r, EntityPrefix)
    ensures StartsWith(url, EntityPrefix) && Contains(url[|EntityPrefix|..], EntityPrefix) ==>
      OccursAt(url[|EntityPrefix|..], EntityPrefix, |r|)
  {
    if StartsWith(url, EntityPrefix) then
      var rest := url[|EntityPrefix|..];
      var k := Find(rest, EntityPrefix);
      CutAtFirst(rest, EntityPrefix);
      if k == -1 then rest else rest[..k]
    else url
  }

  /** With a single occurrence of the prefix, `wd_entity_id` is
      `remove_prefix`. */
  lemma WdEntityIdStrips(url: string)
    requires StartsWith(url, EntityPrefix) && !Contains(url[|EntityPrefix|..], EntityPrefix)
    ensures WdEntityId(url) == RemovePrefix(url, EntityPrefix)
  {
  }

  // ---------------------------------------------------------------------
  // get_types

  /** One row of the type-closure query: the type's URI and its label. */
  datatype TypeRow = TypeRow(typeUri: string, typeLabel: string)

  type TypePair = (string, string)

  function RowId(row: TypeRow): string {
    WdEntityId(row.typeUri)
  }

  function RowPair(row: TypeRow): TypePair {
    (RowId(row), row.typeLabel)
  }

  /** What the variable `ok_types` of `wd_string_search` holds: first the
      ids from `wd_types`, then (once it is rebound to the second result of
      `get_types`) a set of (id, label) pairs, of which no str id is ever a
      member. */
  datatype OkTypes = Ids(ids: set<string>) | Pairs(pairs: set<TypePair>)

  predicate IsOk(ok: OkTypes, id: string) {
    ok.Ids? && id in ok.ids
  }

  predicate HasBad(rows: seq<TypeRow>, bad: set<string>) {
    exists i :: 0 <= i < |rows| && RowId(rows[i]) in bad
  }

  predicate HasTarget(rows: seq<TypeRow>, target: set<string>) {
    exists i :: 0 <= i < |rows| && RowId(rows[i]) in target
  }

  predicate HasOkNonTarget(rows: seq<TypeRow>, target: set<string>, ok: OkTypes) {
    exists i :: 0 <= i < |rows| && RowId(rows[i]) !in target && IsOk(ok, RowId(rows[i]))
  }

  /** What `get_types` answers, read off the rows as a whole: nothing at all
      when any row has a bad type; otherwise the pairs of the target rows,
      and the pairs of the ok rows that are not target rows. */
  function ExpectedTypes(rows: seq<TypeRow>, target: set<string>, ok: OkTypes, bad: set<string>)
    : (set<TypePair>, set<TypePair>)
  {
    if HasBad(rows, bad) then ({}, {})
    else ((set r | r in rows && RowId(r) in target :: RowPair(r)),
          (set r | r in rows && RowId(r) !in target && IsOk(ok, RowId(r)) :: RowPair(r)))
  }

  /** `get_types` over the closure rows of one candidate: a bad type ends
      the loop with two empty sets. */
  method GetTypes(rows: seq<TypeRow>, target: set<string>, ok: OkTypes, bad: set<string>)
    returns (ttypes: set<TypePair>, oktypes: set<TypePair>)
    ensures (ttypes, oktypes) == ExpectedTypes(rows, target, ok, bad)
  {
    ttypes, oktypes := {}, {};
    var i := 0;
    while i < |rows|
      invariant 0 <= i <= |rows|
      invariant !HasBad(rows[..i], bad)
      invariant ttypes == set r | r in rows[..i] && RowId(r) in target :: RowPair(r)
      invariant oktypes == set r | r in rows[..i] && RowId(r) !in target && IsOk(ok, RowId(r)) :: RowPair(r)
    {
      var row := rows[i];
      var id := WdEntityId(row.typeUri);
      if id in bad {
        assert HasBad(rows, bad);
        return {}, {};
      } else if id in target {
        ttypes := ttypes + {(id, row.typeLabel)};
      } else if IsOk(ok, id) {
        oktypes := oktypes + {(id, row.typeLabel)};
      }
      assert rows[..i + 1] == rows[..i] + [row];
      i := i + 1;
    }
    assert rows[..i] == rows;
  }

  /** A candidate lands among the target hits exactly when it has a target
      type and no bad type, whatever ok types it also has; among the ok
      hits exactly when it has an ok type, no target type and no bad type. */
  lemma {:induction false} ClassifyFacts(rows: seq<TypeRow>, target: set<string>, ok: OkTypes, bad: set<string>)
    ensures ExpectedTypes(rows, target, ok, bad).0 != {} <==> !HasBad(rows, bad) && HasTarget(rows, target)
    ensures ExpectedTypes(rows, target, ok, bad).1 != {} <==> !HasBad(rows, bad) && HasOkNonTarget(rows, target, ok)
    ensures HasBad(rows, bad) ==> ExpectedTypes(rows, target, ok, bad) == ({}, {})
    ensures ok.Pairs? ==> ExpectedTypes(rows, target, ok, bad).1 == {}
  {
    if !HasBad(rows, bad) {
      var (tt, ot) := ExpectedTypes(rows, target, ok, bad);
      if HasTarget(rows, target) {
        var i :| 0 <= i < |rows| && RowId(rows[i]) in target;
        assert RowPair(rows[i]) in tt;
      }
      if HasOkNonTarget(rows, target, ok) {
        var i :| 0 <= i < |rows| && RowId(rows[i]) !in target && IsOk(ok, RowId(rows[i]));
        assert RowPair(rows[i]) in ot;
      }
      if tt != {} {
        var p :| p in tt;
        var r :| r in rows && RowId(r) in target && RowPair(r) == p;
        var i :| 0 <= i < |rows| && rows[i] == r;
      }
      if ot != {} {
        var p :| p in ot;
        var r :| r in rows && RowId(r) !in target && IsOk(ok, RowId(r)) && RowPair(r) == p;
        var i :| 0 <= i < |rows| && rows[i] == r;
      }
    }
  }

  // ---------------------------------------------------------------------
  // wd_string_search

  /** A candidate put in a hit list: its title and its matched types, each
      written as "id:label". */
  datatype Found = Found(title: string, types: set<string>)

  function TypeStrings(pairs: set<TypePair>): set<string> {
    set p | p in pairs :: p.0 + ":" + p.1
  }

  /** The state of the candidate loop: the two hit lists and `ok_types`. */
  datatype Scan = Scan(targetHits: seq<Found>, okHits: seq<Found>, ok: OkTypes)

  /** The closure rows of each candidate id. */
  type Closure = string -> seq<TypeRow>

  /** One candidate: classify it, put it in at most one list, and rebind
      `ok_types` to its ok pairs. */
  function ScanOne(st: Scan, title: string, closure: Closure, target: set<string>, bad: set<string>): Scan {
    var tt := ExpectedTypes(closure(title), target, st.ok, bad).0;
    var ot := ExpectedTypes(closure(title), target, st.ok, bad).1;
    var f := Found(title, TypeStrings(tt + ot));
    Scan(if tt != {} then st.targetHits + [f] else st.targetHits,
         if tt == {} && ot != {} then st.okHits + [f] else st.okHits,
         Pairs(ot))
  }

  /** The early exit: a nonzero `top` and at least `top` target hits. */
  predicate Enough(st: Scan, top: int) {
    top != 0 && |st.targetHits| >= top
  }

  /** The rest of the candidate loop from state `st`. */
  function ScanFrom(st: Scan, titles: seq<string>, closure: Closure, target: set<string>,
                    bad: set<string>, top: int): Scan
    decreases |titles|
  {
    if titles == [] then st
    else
      var st' := ScanOne(st, titles[0], closure, target, bad);
      if Enough(st', top) then st' else ScanFrom(st', titles[1..], closure, target, bad, top)
  }

  function InitialScan(ok: set<string>): Scan {
    Scan([], [], Ids(ok))
  }

  /** One returned record. */
  datatype Hit = Hit(id: string, types: set<string>, searchString: string)

  function AsHit(f: Found, query: string): Hit {
    Hit(f.title, f.types, query)
  }

  /** The end of `wd_string_search`: target hits then ok hits, cut to `top`
      with Python's `hits[:top]` when there are more than `top`. */
  function Select(st: Scan, top: int, query: string): (r: seq<Hit>)
    ensures top >= 0 ==> |r| <= top
    ensures top == 0 ==> r == []
    ensures |r| <= |st.targetHits| + |st.okHits|
    ensures forall i :: 0 <= i < |r| ==> r[i] == AsHit((st.targetHits + st.okHits)[i], query)
    ensures |st.targetHits| + |st.okHits| <= top ==> |r| == |st.targetHits| + |st.okHits|
    ensures top >= 0 && |st.targetHits| + |st.okHits| > top ==> |r| == top
    ensures top < 0 ==> |r| == if |st.targetHits| + |st.okHits| + top > 0 then |st.targetHits| + |st.okHits| + top else 0
  {
    var hits := st.targetHits + st.okHits;
    var kept := if hits == [] then [] else if |hits| > top then Slice(hits, 0, top) else hits;
    assert StartsWith(hits, kept);
    seq(|kept|, i requires 0 <= i < |kept| => AsHit(kept[i], query))
  }

  /** The loop body for one candidate. */
  method ScanCandidate(targetHits: seq<Found>, okHits: seq<Found>, okTypes: OkTypes, title: string,
                       closure: Closure, target: set<string>, bad: set<string>)
    returns (targetHits': seq<Found>, okHits': seq<Found>, okTypes': OkTypes)
    ensures Scan(targetHits', okHits', okTypes') == ScanOne(Scan(targetHits, okHits, okTypes), title, closure, target, bad)
  {
    var tt, ot := GetTypes(closure(title), target, okTypes, bad);
    okTypes' := Pairs(ot);
    var f := Found(title, TypeStrings(tt + ot));
    targetHits', okHits' := targetHits, okHits;
    if tt != {} {
      targetHits' := targetHits + [f];
    } else if ot != {} {
      okHits' := okHits + [f];
    }
  }

  /** The end of the search: join the lists, cut to `top`, make records. */
  method SelectHits(targetHits: seq<Found>, okHits: seq<Found>, okTypes: OkTypes, top: int, query: string)
    returns (hits: seq<Hit>)
    ensures hits == Select(Scan(targetHits, okHits, okTypes), top, query)
  {
    var all := targetHits + okHits;
    if all == [] {
      return [];
    } else if |all| > top {
      all := Slice(all, 0, top);
    }
    hits := seq(|all|, k requires 0 <= k < |all| => AsHit(all[k], query));
  }

  /** The search over given candidates and already-expanded type sets. */
  method SearchCandidates(query: string, titles: seq<string>, closure: Closure,
                          target: set<string>, ok: set<string>, bad: set<string>, top: int)
    returns (hits: seq<Hit>)
    ensures hits == Select(ScanFrom(InitialScan(ok), titles, closure, target, bad, top), top, query)
  {
    ghost var final := ScanFrom(InitialScan(ok), titles, closure, target, bad, top);
    var targetHits: seq<Found> := [];
    var okHits: seq<Found> := [];
    var okTypes := Ids(ok);
    var i := 0;
    while i < |titles|
      invariant 0 <= i <= |titles|
      invariant ScanFrom(Scan(targetHits, okHits, okTypes), titles[i..], closure, target, bad, top) == final
    {
      var title := titles[i];
      assert titles[i..][0] == title && titles[i..][1..] == titles[i + 1..];
      targetHits, okHits, okTypes := ScanCandidate(targetHits, okHits, okTypes, title, closure, target, bad);
      if top != 0 && |targetHits| >= top {
        assert Scan(targetHits, okHits, okTypes) == final;
        break;
      }
      i := i + 1;
    }
    hits := SelectHits(targetHits, okHits, okTypes, top, query);
  }

  /** One call of `wd_types` as `TypeRegistry.WdTypes` performs it, given
      the names it loops over: an argument that is not a str, set or list
      gives no ids and leaves the index alone. */
  function TypesRun(index: map<string, seq<string>>, arg: EntityTypes.TypeNames, names: seq<string>): EntityTypes.Expansion {
    if arg.OtherArg? then EntityTypes.Expansion({}, [], index, false) else EntityTypes.ExpandNames(index, names)
  }

  /** `wd_string_search` itself: expand the three type-name arguments with
      `wd_types`, in order (each may extend the registry, and an empty name
      raises IndexError, which ends the search), then search. */
  method WdStringSearch(reg: EntityTypes.TypeRegistry, query: string, titles: seq<string>, closure: Closure,
                        targetNames: EntityTypes.TypeNames, okNames: EntityTypes.TypeNames,
                        badNames: EntityTypes.TypeNames, top: int)
    returns (r: Result<seq<Hit>>, ghost target: set<string>, ghost ok: set<string>, ghost bad: set<string>,
             ghost names1: seq<string>, ghost names2: seq<string>, ghost names3: seq<string>)
    modifies reg
    ensures EntityTypes.LoopOrder(targetNames, names1)
    ensures var run1 := TypesRun(old(reg.index), targetNames, names1);
      var run2 := TypesRun(run1.index, okNames, names2);
      var run3 := TypesRun(run2.index, badNames, names3);
      && (!run1.raised ==> EntityTypes.LoopOrder(okNames, names2))
      && (!run1.raised && !run2.raised ==> EntityTypes.LoopOrder(badNames, names3))
      && (r.Err? <==> run1.raised || run2.raised || run3.raised)
      && (r.Err? ==> r.error == IndexError)
      && reg.index == (if run1.raised then run1.index else if run2.raised then run2.index else run3.index)
      && (r.Ok? ==> target == run1.ids && ok == run2.ids && bad == run3.ids)
    ensures r.Ok? ==> r.value == Select(ScanFrom(InitialScan(ok), titles, closure, target, bad, top), top, query)
    ensures r.Ok? && top >= 0 ==> |r.value| <= top
  {
    target, ok, bad := {}, {}, {};
    names2, names3 := [], [];
    var t, reported1, badArg1;
    t, reported1, badArg1, names1 := reg.WdTypes(targetNames);
    if t.Err? {
      return Err(t.error), target, ok, bad, names1, names2, names3;
    }
    var o, reported2, badArg2;
    o, reported2, badArg2, names2 := reg.WdTypes(okNames);
    if o.Err? {
      return Err(o.error), target, ok, bad, names1, names2, names3;
    }
    var b, reported3, badArg3;
    b, reported3, badArg3, names3 := reg.WdTypes(badNames);
    if b.Err? {
      return Err(b.error), target, ok, bad, names1, names2, names3;
    }
    target, ok, bad := t.value, o.value, b.value;
    var hits := SearchCandidates(query, titles, closure, t.value, o.value, b.value, top);
    r := Ok(hits);
  }

  /** Every hit of a loop started from `st` is where it belongs, and the ok
      list only grows while `ok_types` still holds ids. */
  ghost predicate Sound(st: Scan, closure: Closure, target: set<string>, ok: set<string>, bad: set<string>) {
    && (st.ok.Ids? ==> st.ok == Ids(ok))
    && (forall f :: f in st.targetHits ==>
          !HasBad(closure(f.title), bad) && HasTarget(closure(f.title), target))
    && (forall f :: f in st.okHits ==>
          !HasBad(closure(f.title), bad) && !HasTarget(closure(f.title), target) &&
          HasOkNonTarget(closure(f.title), target, Ids(ok)))
  }

  lemma {:induction false} ScanFromSound(st: Scan, titles: seq<string>, closure: Closure,
                                        target: set<string>, ok: set<string>, bad: set<string>, top: int)
    requires Sound(st, closure, target, ok, bad)
    ensures Sound(ScanFrom(st, titles, closure, target, bad, top), closure, target, ok, bad)
    decreases |titles|
  {
    if titles != [] {
      var rows := closure(titles[0]);
      ClassifyFacts(rows, target, st.ok, bad);
      var st' := ScanOne(st, titles[0], closure, target, bad);
      assert Sound(st', closure, target, ok, bad);
      if !Enough(st', top) {
        ScanFromSound(st', titles[1..], closure, target, ok, bad, top);
      }
    }
  }

  /** Once `ok_types` holds pairs, no candidate enters the ok list. */
  lemma {:induction false} PairsBlockOk(st: Scan, titles: seq<string>, closure: Closure,
                                       target: set<string>, bad: set<string>, top: int)
    requires st.ok.Pairs?
    ensures ScanFrom(st, titles, closure, target, bad, top).okHits == st.okHits
    ensures ScanFrom(st, titles, closure, target, bad, top).ok.Pairs?
    decreases |titles|
  {
    if titles != [] {
      ClassifyFacts(closure(titles[0]), target, st.ok, bad);
      var st' := ScanOne(st, titles[0], closure, target, bad);
      if !Enough(st', top) {
        PairsBlockOk(st', titles[1..], closure, target, bad, top);
      }
    }
  }

  /** The properties of the hit lists: every target hit has a target type
      and no bad type; every ok hit has an ok type and neither a target nor a
      bad type; and because `ok_types` is rebound after the first candidate,
      only the first candidate can ever be an ok hit. */
  lemma {:induction false} HitLists(titles: seq<string>, closure: Closure, target: set<string>,
                                    ok: set<string>, bad: set<string>, top: int)
    ensures var st := ScanFrom(InitialScan(ok), titles, closure, target, bad, top);
      && (forall f :: f in st.targetHits ==>
            !HasBad(closure(f.title), bad) && HasTarget(closure(f.title), target))
      && (forall f :: f in st.okHits ==>
            !HasBad(closure(f.title), bad) && !HasTarget(closure(f.title), target) &&
            HasOkNonTarget(closure(f.title), target, Ids(ok)))
      && |st.okHits| <= 1
      && (st.okHits != [] ==> st.okHits[0].title == titles[0])
  {
    ScanFromSound(InitialScan(ok), titles, closure, target, ok, bad, top);
    if titles != [] {
      var st1 := ScanOne(InitialScan(ok), titles[0], closure, target, bad);
      if !Enough(st1, top) {
        PairsBlockOk(st1, titles[1..], closure, target, bad, top);
      }
    }
  }

  /** Once `top` target hits are found the loop stops: candidates after
      that point are never examined and cannot change the outcome. */
  lemma {:induction false} EarlyStop(st: Scan, titles: seq<string>, rest: seq<string>, closure: Closure,
                                     target: set<string>, bad: set<string>, top: int)
    requires titles != [] && top != 0
    requires |ScanFrom(st, titles, closure, target, bad, top).targetHits| >= top
    ensures ScanFrom(st, titles + rest, closure, target, bad, top) == ScanFrom(st, titles, closure, target, bad, top)
  {
    var step := (s, t) => ScanOne(s, t, closure, target, bad);
    ScanFromRun(st, titles, closure, target, bad, top);
    ScanFromRun(st, titles + rest, closure, target, bad, top);
    EarlyStopRun(st, titles, rest, step, top);
  }

  /** The candidate loop with its step given as a function. */
  ghost function RunFrom(st: Scan, titles: seq<string>, step: (Scan, string) -> Scan, top: int): Scan
    decreases |titles|
  {
    if titles == [] then st
    else
      var st' := step(st, titles[0]);
      if Enough(st', top) then st' else RunFrom(st', titles[1..], step, top)
  }

  lemma {:induction false} ScanFromRun(st: Scan, titles: seq<string>, closure: Closure,
                                       target: set<string>, bad: set<string>, top: int)
    ensures ScanFrom(st, titles, closure, target, bad, top) ==
      RunFrom(st, titles, (s, t) => ScanOne(s, t, closure, target, bad), top)
    decreases |titles|
  {
    if titles != [] {
      ScanFromRun(ScanOne(st, titles[0], closure, target, bad), titles[1..], closure, target, bad, top);
    }
  }

  lemma {:induction false} EarlyStopRun(st: Scan, titles: seq<string>, rest: seq<string>,
                                        step: (Scan, string) -> Scan, top: int)
    requires titles != [] && top != 0
    requires |RunFrom(st, titles, step, top).targetHits| >= top
    ensures RunFrom(st, titles + rest, step, top) == RunFrom(st, titles, step, top)
    decreases |titles|
  {
    var st' := step(st, titles[0]);
    assert (titles + rest)[0] == titles[0];
    if !Enough(st', top) {
      assert titles[1..] != [];
      assert (titles + rest)[1..] == titles[1..] + rest;
      EarlyStopRun(st', titles[1..], rest, step, top);
    }
  }

  /** A candidate qualifies as a target hit: a target type and no bad one. */
  ghost predicate TargetQualified(title: string, closure: Closure, target: set<string>, bad: set<string>) {
    !HasBad(closure(title), bad) && HasTarget(closure(title), target)
  }

  function Titles(fs: seq<Found>): set<string> {
    set f | f in fs :: f.title
  }

  /** One candidate adds its title to the target hits exactly when it
      qualifies. */
  lemma ScanOneTitles(st: Scan, title: string, closure: Closure, target: set<string>, bad: set<string>)
    ensures Titles(ScanOne(st, title, closure, target, bad).targetHits) ==
      Titles(st.targetHits) + (if TargetQualified(title, closure, target, bad) then {title} else {})
  {
    ClassifyFacts(closure(title), target, st.ok, bad);
    var tt := ExpectedTypes(closure(title), target, st.ok, bad).0;
    var ot := ExpectedTypes(closure(title), target, st.ok, bad).1;
    if tt != {} {
      var f := Found(title, TypeStrings(tt + ot));
      assert Titles(st.targetHits + [f]) == Titles(st.targetHits) + {title};
    }
  }

  /** The qualifying titles of a list: those of its head and of its tail. */
  lemma QualifiedSplit(titles: seq<string>, closure: Closure, target: set<string>, bad: set<string>)
    requires titles != []
    ensures (set t | t in titles && TargetQualified(t, closure, target, bad)) ==
      (if TargetQualified(titles[0], closure, target, bad) then {titles[0]} else {}) +
      (set t | t in titles[1..] && TargetQualified(t, closure, target, bad))
  {
    assert titles == [titles[0]] + titles[1..];
    assert forall t :: t in titles <==> t == titles[0] || t in titles[1..];
  }

  /** With `top` zero every candidate is examined, and the target hits are
      exactly the qualifying candidates (in both directions). */
  lemma {:induction false} AllTargetsWhenTopZero(st: Scan, titles: seq<string>, closure: Closure,
                                                 target: set<string>, bad: set<string>)
    ensures Titles(ScanFrom(st, titles, closure, target, bad, 0).targetHits) ==
      Titles(st.targetHits) + set t | t in titles && TargetQualified(t, closure, target, bad)
    decreases |titles|
  {
    if titles != [] {
      var st' := ScanOne(st, titles[0], closure, target, bad);
      ScanOneTitles(st, titles[0], closure, target, bad);
      AllTargetsWhenTopZero(st', titles[1..], closure, target, bad);
      QualifiedSplit(titles, closure, target, bad);
    }
  }

  /** The search result: the first candidates' ids in list order, at most
      `top` of them, every one a qualifying candidate, carrying the query. */
  lemma {:induction false} SearchResult(query: string, titles: seq<string>, closure: Closure,
                                        target: set<string>, ok: set<string>, bad: set<string>, top: int)
    ensures var hits := Select(ScanFrom(InitialScan(ok), titles, closure, target, bad, top), top, query);
      && (top >= 0 ==> |hits| <= top)
      && (forall h :: h in hits ==>
            (h.searchString == query && h.id in titles && !HasBad(closure(h.id), bad) &&
             (HasTarget(closure(h.id), target) || HasOkNonTarget(closure(h.id), target, Ids(ok)))))
  {
    var st := ScanFrom(InitialScan(ok), titles, closure, target, bad, top);
    HitLists(titles, closure, target, ok, bad, top);
    TitlesFromCandidates(InitialScan(ok), titles, closure, target, bad, top);
    var hits := Select(st, top, query);
    forall h | h in hits
      ensures h.searchString == query && h.id in titles && !HasBad(closure(h.id), bad) &&
        (HasTarget(closure(h.id), target) || HasOkNonTarget(closure(h.id), target, Ids(ok)))
    {
      var i :| 0 <= i < |hits| && hits[i] == h;
      var f := (st.targetHits + st.okHits)[i];
      assert f in st.targetHits || f in st.okHits;
    }
  }

  lemma {:induction false} TitlesFromCandidates(st: Scan, titles: seq<string>, closure: Closure,
                                                target: set<string>, bad: set<string>, top: int)
    ensures var st' := ScanFrom(st, titles, closure, target, bad, top);
      forall f :: f in st'.targetHits + st'.okHits ==> f in st.targetHits + st.okHits || f.title in titles
    decreases |titles|
  {
    if titles != [] {
      var st1 := ScanOne(st, titles[0], closure, target, bad);
      if !Enough(st1, top) {
        TitlesFromCandidates(st1, titles[1..], closure, target, bad, top);
        assert forall t :: t in titles[1..] ==> t in titles;
      }
    }
  }

  // ---------------------------------------------------------------------
  // encode_string

  /** The characters `encode_string` puts a backslash before. */
  const Specials: string := "(),'/@"

  /** Every character of `s` that is in `cs` preceded by a backslash. */
  function EscapeIn(s: string, cs: string): string
    decreases |s|
  {
    if s == [] then [] else (if s[0] in cs then ['\\', s[0]] else [s[0]]) + EscapeIn(s[1..], cs)
  }

  /** What `encode_string` produces: the specials escaped, and a final `.`
      written `\.`. */
  function Escaped(s: string): string {
    var e := EscapeIn(s, Specials);
    if EndsWith(e, ".") then e[..|e| - 1] + "\\." else e
  }

  /** `text.replace(c, "\\" + c)` on a string where the characters of `cs`
      are already escaped escapes `c` as well. */
  lemma {:induction false} EscapeOneMore(s: string, cs: string, c: char)
    requires c != '\\' && c !in cs
    ensures ReplaceChar(EscapeIn(s, cs), c, ['\\', c]) == EscapeIn(s, cs + [c])
    decreases |s|
  {
    if s != [] {
      var head := if s[0] in cs then ['\\', s[0]] else [s[0]];
      ReplaceCharAppend(head, EscapeIn(s[1..], cs), c, ['\\', c]);
      EscapeOneMore(s[1..], cs, c);
    }
  }

  /** Escaping no characters changes nothing. */
  lemma {:induction false} EscapeNothing(s: string)
    ensures EscapeIn(s, []) == s
    decreases |s|
  {
    if s != [] {
      EscapeNothing(s[1..]);
    }
  }

  /** `encode_string`: one `replace` per special character present, then the
      trailing-dot rule. */
  method EncodeString(text0: string) returns (text: string)
    ensures text == Escaped(text0)
  {
    text := text0;
    EscapeNothing(text0);
    var k := 0;
    while k < |Specials|
      invariant 0 <= k <= |Specials|
      invariant text == EscapeIn(text0, Specials[..k])
    {
      assert Specials[..k + 1] == Specials[..k] + [Specials[k]];
      text := EscapeStep(text0, Specials[..k], text, Specials[k]);
      k := k + 1;
    }
    assert Specials[..k] == Specials;
    if EndsWith(text, ".") {
      text := text[..|text| - 1] + "\\.";
    }
  }

  /** One `text.replace(c, "\\" + c)` of the escaping loop. */
  method EscapeStep(text0: string, done: string, text: string, ch: char) returns (text': string)
    requires ch != '\\' && ch !in done
    requires text == EscapeIn(text0, done)
    ensures text' == EscapeIn(text0, done + [ch])
  {
    if ch in text {
      ReplaceAllOneChar(text, ch, ['\\', ch]);
      EscapeOneMore(text0, done, ch);
      text' := ReplaceAll(text, [ch], ['\\', ch]);
    } else {
      EscapeAbsent(text0, done, ch);
      text' := text;
    }
  }

  /** Every character of the input survives escaping. */
  lemma {:induction false} EscapeKeeps(s: string, cs: string, c: char)
    requires c in s
    ensures c in EscapeIn(s, cs)
    decreases |s|
  {
    if s[0] != c {
      EscapeKeeps(s[1..], cs, c);
    }
  }

  lemma {:induction false} EscapeIgnoresAbsent(s: string, cs: string, c: char)
    requires c !in s
    ensures EscapeIn(s, cs + [c]) == EscapeIn(s, cs)
    decreases |s|
  {
    if s != [] {
      EscapeIgnoresAbsent(s[1..], cs, c);
    }
  }

  /** A special character that does not occur needs no `replace`. */
  lemma EscapeAbsent(s: string, cs: string, c: char)
    requires c !in EscapeIn(s, cs)
    ensures EscapeIn(s, cs + [c]) == EscapeIn(s, cs)
  {
    if c in s {
      EscapeKeeps(s, cs, c);
    }
    EscapeIgnoresAbsent(s, cs, c);
  }

  /** Deleting every backslash. */
  function DropBackslashes(t: string): (r: string)
    ensures '\\' !in r
    decreases |t|
  {
    if t == [] then [] else (if t[0] == '\\' then [] else [t[0]]) + DropBackslashes(t[1..])
  }

  lemma {:induction false} DropAppend(a: string, b: string)
    ensures DropBackslashes(a + b) == DropBackslashes(a) + DropBackslashes(b)
    decreases |a|
  {
    if a == [] {
      assert a + b == b;
    } else {
      var h := if a[0] == '\\' then [] else [a[0]];
      assert (a + b)[0] == a[0];
      assert (a + b)[1..] == a[1..] + b;
      assert DropBackslashes(a + b) == h + DropBackslashes(a[1..] + b);
      DropAppend(a[1..], b);
      assert DropBackslashes(a) == h + DropBackslashes(a[1..]);
    }
  }

  lemma {:induction false} DropEscapeIn(s: string, cs: string)
    requires '\\' !in s
    ensures DropBackslashes(EscapeIn(s, cs)) == s
    decreases |s|
  {
    if s != [] {
      var head := if s[0] in cs then ['\\', s[0]] else [s[0]];
      DropAppend(head, EscapeIn(s[1..], cs));
      DropEscapeIn(s[1..], cs);
      assert DropBackslashes(head) == [s[0]];
      assert s == [s[0]] + s[1..];
    }
  }

  lemma DropDot()
    ensures DropBackslashes(".") == "." && DropBackslashes("\\.") == "."
  {
    assert "\\."[1..] == ".";
    assert "."[1..] == [];
  }

  /** Deleting the backslashes of an encoded string recovers any input that
      had none. */
  lemma {:induction false} EncodeRoundTrip(s: string)
    requires '\\' !in s
    ensures DropBackslashes(Escaped(s)) == s
  {
    var e := EscapeIn(s, Specials);
    DropEscapeIn(s, Specials);
    if EndsWith(e, ".") {
      var front := e[..|e| - 1];
      assert e == front + ".";
      assert Escaped(s) == front + "\\.";
      DropAppend(front, ".");
      DropAppend(front, "\\.");
      DropDot();
    }
  }

  /** In the encoding every special character is preceded by a backslash. */
  lemma {:induction false} SpecialsEscaped(s: string, cs: string)
    requires '\\' !in cs
    ensures forall i :: 0 <= i < |EscapeIn(s, cs)| && EscapeIn(s, cs)[i] in cs ==>
      0 < i && EscapeIn(s, cs)[i - 1] == '\\'
    decreases |s|
  {
    if s != [] {
      SpecialsEscaped(s[1..], cs);
      var head := if s[0] in cs then ['\\', s[0]] else [s[0]];
      var e := EscapeIn(s, cs);
      var tl := EscapeIn(s[1..], cs);
      assert e == head + tl;
      forall i | 0 <= i < |e| && e[i] in cs ensures 0 < i && e[i - 1] == '\\' {
        if i < |head| {
          assert e[i] == head[i];
        } else {
          assert e[i] == tl[i - |head|];
          assert e[i - 1] == tl[i - |head| - 1];
        }
      }
    }
  }

  // ---------------------------------------------------------------------
  // get_ladw

  /** One binding of the label/aliases/description/wikiname query; each
      variable may be unbound. */
  datatype LadwBinding = LadwBinding(lbl: Option<string>, aliases: Option<string>,
                                     desc: Option<string>, wname: Option<string>)

  datatype Ladw = Ladw(lbl: string, aliases: seq<string>, desc: string, wname: string)

  /** The aliases arrive joined by `|`; an empty string means none. */
  function ParseAliases(value: Option<string>): (r: seq<string>)
    ensures forall i :: 0 <= i < |r| ==> '|' !in r[i]
    ensures r != [""]
    ensures value.None? ==> r == []
  {
    if value.None? then []
    else
      var pieces := SplitOn(value.value, {'|'});
      if pieces == [""] then [] else pieces
  }

  /** Joining a list of aliases and parsing it back gives the list, unless
      it is the single empty alias (which reads back as no aliases). */
  lemma {:induction false} AliasesRoundTrip(aliases: seq<string>)
    requires forall i :: 0 <= i < |aliases| ==> '|' !in aliases[i]
    requires aliases != [""]
    ensures ParseAliases(Some(Join(aliases, "|"))) == aliases
  {
    if aliases != [] {
      SplitJoin(aliases, '|');
    }
  }

  /** And parsing then joining gives the string back. */
  lemma {:induction false} AliasesJoinBack(value: string)
    ensures Join(ParseAliases(Some(value)), "|") == value
  {
    JoinSplit(value, '|');
  }

  function OrEmpty(v: Option<string>): string {
    if v.Some? then v.value else ""
  }

  /** `get_ladw` given the query answer: no answer gives None, an answer
      with no bindings raises IndexError, otherwise the first binding is
      read with `''` and `[]` for unbound variables. */
  function GetLadw(answer: Option<seq<LadwBinding>>): (r: Result<Option<Ladw>>)
    ensures answer.None? <==> r == Ok(None)
    ensures r.Err? <==> answer == Some([])
    ensures r.Err? ==> r.error == IndexError
    ensures r.Ok? && r.value.Some? ==>
      && (forall i :: 0 <= i < |r.value.value.aliases| ==> '|' !in r.value.value.aliases[i])
      && r.value.value.aliases != [""]
    ensures r.Ok? && r.value.Some? ==>
      var b := answer.value[0];
      && r.value.value.lbl == OrEmpty(b.lbl)
      && r.value.value.desc == OrEmpty(b.desc)
      && r.value.value.wname == OrEmpty(b.wname)
      && (b.aliases.Some? ==> Join(r.value.value.aliases, "|") == b.aliases.value)
      && (b.aliases.None? ==> r.value.value.aliases == [])
  {
    if answer.None? then Ok(None)
    else if answer.value == [] then Err(IndexError)
    else
      var b := answer.value[0];
      AliasesJoinBack(OrEmpty(b.aliases));
      Ok(Some(Ladw(OrEmpty(b.lbl), ParseAliases(b.aliases), OrEmpty(b.desc), OrEmpty(b.wname))))
  }

  // ---------------------------------------------------------------------
  // summary1 / summary

  /** A completed hit: its id and, per language, the dict of label,
      description and so on. */
  datatype CompletedHit = CompletedHit(id: string, langs: map<string, map<string, string>>)

  type SummaryRow = (string, string, string, string)

  const WikidataPage: string := "https://wikidata.org/wiki/"

  /** `summary1`: id, English label, English description and page URL of a
      hit, four empty strings for no hit, KeyError when the English entry or
      one of its fields is missing. */
  function Summary1(hit: Option<CompletedHit>): (r: Result<SummaryRow>)
    ensures hit.None? ==> r == Ok(("", "", "", ""))
    ensures hit.Some? ==>
      (r.Ok? <==> "en" in hit.value.langs && "label" in hit.value.langs["en"] &&
                  "description" in hit.value.langs["en"])
    ensures r.Err? ==> r.error == KeyError
    ensures hit.Some? && r.Ok? ==>
      r.value.0 == hit.value.id && r.value.3 == WikidataPage + hit.value.id &&
      r.value.1 == hit.value.langs["en"]["label"] && r.value.2 == hit.value.langs["en"]["description"]
  {
    if hit.None? then Ok(("", "", "", ""))
    else
      var h := hit.value;
      if "en" !in h.langs then Err(KeyError)
      else if "label" !in h.langs["en"] || "description" !in h.langs["en"] then Err(KeyError)
      else Ok((h.id, h.langs["en"]["label"], h.langs["en"]["description"], WikidataPage + h.id))
  }

  /** `summary`'s argument: a list of hits or a single one. */
  datatype HitsArg = HitList(hits: seq<Option<CompletedHit>>) | Single(hit: Option<CompletedHit>)

  datatype Summaries = Rows(rows: seq<SummaryRow>) | OneRow(row: SummaryRow)

  function SummaryList(hits: seq<Option<CompletedHit>>): (r: Result<seq<SummaryRow>>)
    ensures r.Ok? <==> forall i :: 0 <= i < |hits| ==> Summary1(hits[i]).Ok?
    ensures r.Ok? ==> |r.value| == |hits| && forall i :: 0 <= i < |hits| ==> r.value[i] == Summary1(hits[i]).value
    ensures r.Err? ==> r.error == KeyError
    decreases |hits|
  {
    if hits == [] then Ok([])
    else
      var first := Summary1(hits[0]);
      var rest := SummaryList(hits[1..]);
      if first.Err? then Err(first.error)
      else if rest.Err? then
        assert exists i :: 1 <= i < |hits| && Summary1(hits[i]).Err? by {
          var j :| 0 <= j < |hits[1..]| && Summary1(hits[1..][j]).Err?;
          assert hits[j + 1] == hits[1..][j];
        }
        Err(rest.error)
      else
        Ok([first.value] + rest.value)
  }

  /** `summary`: one row per hit of a list, or the row of a single hit. */
  function Summary(arg: HitsArg): (r: Result<Summaries>)
    ensures arg.Single? ==> r == (if Summary1(arg.hit).Ok? then Ok(OneRow(Summary1(arg.hit).value))
                                  else Err(Summary1(arg.hit).error))
    ensures arg.HitList? ==> r == (if SummaryList(arg.hits).Ok? then Ok(Rows(SummaryList(arg.hits).value))
                                   else Err(KeyError))
    ensures arg.HitList? && r.Ok? ==> r.value.Rows? && |r.value.rows| == |arg.hits|
  {
    match arg
    case Single(h) =>
      var s := Summary1(h);
      if s.Ok? then Ok(OneRow(s.value)) else Err(s.error)
    case HitList(hs) =>
      var s := SummaryList(hs);
      if s.Ok? then Ok(Rows(s.value)) else Err(s.error)
  }
}
