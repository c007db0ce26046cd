/** The post-processing half of gkg_search.py: the Knowledge Graph Search
    response is a list of elements, each holding a `result` dict; the code
    copies each element's score into its result, rewrites the result's
    detailed description in place, and formats hits as short summaries.
    The HTTP query itself is not modelled: the candidate elements are a
    parameter. */
module GkgSearch {
  import opened Wrappers
  import opened PyStr

  /** A JSON value of the response. Dicts live on the heap, because the
      code deletes and renames their keys in place. */
  datatype Json =
    | JStr(s: string)
    | JNum(x: real)
    | JBool(b: bool)
    | JNull
    | JList(items: seq<Json>)
    | JDict(d: Dict)

  class Dict {
    var fields: map<string, Json>

    constructor (f: map<string, Json>)
      ensures fields == f
    {
      fields := f;
    }
  }

  type Fields = map<string, Json>

  /** The fields of a set of dicts at one moment. */
  type Heap = map<Dict, Fields>

  /** The dicts a value holds itself or through nested lists (not those
      inside its dicts). */
  function Dicts(v: Json): set<Dict>
    decreases v
  {
    match v
    case JDict(d) => {d}
    case JList(items) => set i, x | 0 <= i < |items| && x in Dicts(items[i]) :: x
    case _ => {}
  }

  lemma DictsOfItem(v: Json, i: nat)
    requires v.JList? && i < |v.items|
    ensures Dicts(v.items[i]) <= Dicts(v)
  {
  }

  function Snap(s: set<Dict>): (h: Heap)
    reads s
    ensures h.Keys == s
    ensures forall d :: d in s ==> h[d] == d.fields
  {
    map d | d in s :: d.fields
  }

  /** Every dict that a field of the heap refers to is in the heap. */
  ghost predicate Closed(h: Heap) {
    forall d, k :: d in h && k in h[d] ==> Dicts(h[d][k]) <= h.Keys
  }

  // ---------------------------------------------------------------------
  // gkg_types

  /** `s.split(sep)` with a non-empty separator: the pieces between the
      leftmost non-overlapping occurrences of `sep`. */
  function SplitStr(s: string, sep: string): (r: seq<string>)
    requires sep != []
    ensures |r| >= 1
    ensures Find(s, sep) == -1 ==> r == [s]
    decreases |s|
  {
    var i := Find(s, sep);
    if i == -1 then [s] else [s[..i]] + SplitStr(s[i + |sep|..], sep)
  }

  /** `set('|'.split(typestrings))`: the receiver and the argument are
      swapped, so the one-character string "|" is split on the whole list
      of names. */
  function GkgTypesAsWritten(typestrings: string): set<string>
    requires typestrings != []
  {
    set x | x in SplitStr("|", typestrings)
  }

  /** For any list longer than one character the set as written holds the
      separator alone, and so none of the names. */
  lemma GkgTypesAsWrittenIsBar(typestrings: string)
    requires |typestrings| >= 2
    ensures GkgTypesAsWritten(typestrings) == {"|"}
  {
    assert SplitStr("|", typestrings) == ["|"];
  }

  /** `set(typestrings.split('|'))`: the names themselves. */
  function GkgTypes(typestrings: string): set<string> {
    set x | x in SplitOn(typestrings, {'|'})
  }

  /** Split the intended way, the '|'-join of separator-free names gives
      back exactly those names. */
  lemma GkgTypesAreTheNames(names: seq<string>)
    requires |names| >= 1
    requires forall i :: 0 <= i < |names| ==> '|' !in names[i]
    ensures GkgTypes(Join(names, "|")) == set x | x in names
  {
    SplitJoin(names, '|');
  }

  // ---------------------------------------------------------------------
  // simplify_detailed_description

  /** One dict: `license` deleted (a missing one raises), then `inLanguage`
      renamed to `@language`. */
  function SimplifyFields(f: Fields): (r: Result<Fields>)
    ensures r.Ok? <==> "license" in f
    ensures r.Err? ==> r.error == KeyError
    ensures r.Ok? ==> "license" !in r.value && "inLanguage" !in r.value
    ensures r.Ok? && "inLanguage" in f ==> "@language" in r.value && r.value["@language"] == f["inLanguage"]
    ensures r.Ok? && "inLanguage" !in f ==>
      ("@language" in r.value <==> "@language" in f) &&
      ("@language" in f ==> r.value["@language"] == f["@language"])
    ensures r.Ok? ==> forall k :: k != "license" && k != "inLanguage" && k != "@language" ==>
      (k in r.value <==> k in f) && (k in f ==> r.value[k] == f[k])
    ensures r.Ok? ==> r.value.Values <= f.Values
  {
    if "license" !in f then Err(KeyError)
    else
      var g := f - {"license"};
      if "inLanguage" in g then Ok(g["@language" := g["inLanguage"]] - {"inLanguage"}) else Ok(g)
  }

  /** `simplify_detailed_description(v)` run on heap `h`: a list is walked
      element by element (nested lists too) and the first error stops the
      walk; a dict is simplified; anything else cannot be `del`-indexed. */
  function Run(h: Heap, v: Json): (r: (Result<()>, Heap))
    requires Dicts(v) <= h.Keys
    ensures r.1.Keys == h.Keys
    decreases v, 1, 0
  {
    match v
    case JDict(d) =>
      (match SimplifyFields(h[d])
       case Err(e) => (Err(e), h)
       case Ok(f) => (Ok(()), h[d := f]))
    case JList(items) => RunFrom(h, v, 0)
    case _ => (Err(TypeError), h)
  }

  /** The loop over the elements of list `v` from the `i`-th on. */
  function RunFrom(h: Heap, v: Json, i: nat): (r: (Result<()>, Heap))
    requires v.JList? && i <= |v.items| && Dicts(v) <= h.Keys
    ensures r.1.Keys == h.Keys
    decreases v, 0, |v.items| - i
  {
    if i == |v.items| then (Ok(()), h)
    else
      DictsOfItem(v, i);
      var (r1, h1) := Run(h, v.items[i]);
      if r1.Err? then (r1, h1) else RunFrom(h1, v, i + 1)
  }

  /** The walk changes only the dicts the value holds. */
  lemma {:induction false} RunFrame(h: Heap, v: Json)
    requires Dicts(v) <= h.Keys
    ensures forall d :: d in h && d !in Dicts(v) ==> Run(h, v).1[d] == h[d]
    decreases v, 1, 0
  {
    if v.JList? {
      RunFromFrame(h, v, 0);
    }
  }

  lemma {:induction false} RunFromFrame(h: Heap, v: Json, i: nat)
    requires v.JList? && i <= |v.items| && Dicts(v) <= h.Keys
    ensures forall d :: d in h && d !in Dicts(v) ==> RunFrom(h, v, i).1[d] == h[d]
    decreases v, 0, |v.items| - i
  {
    if i < |v.items| {
      DictsOfItem(v, i);
      RunFrame(h, v.items[i]);
      var h1 := Run(h, v.items[i]).1;
      if Run(h, v.items[i]).0.Ok? {
        RunFromFrame(h1, v, i + 1);
      }
    }
  }

  /** The walk keeps every reference inside the heap: it only deletes
      keys and moves a value from one key to another. */
  lemma {:induction false} RunClosed(h: Heap, v: Json)
    requires Dicts(v) <= h.Keys && Closed(h)
    ensures Closed(Run(h, v).1)
    decreases v, 1, 0
  {
    match v
    case JDict(d) =>
      var r := SimplifyFields(h[d]);
      if r.Ok? {
        forall k | k in r.value ensures Dicts(r.value[k]) <= h.Keys {
          assert r.value[k] in h[d].Values;
        }
      }
    case JList(_) => RunFromClosed(h, v, 0);
    case _ =>
  }

  lemma {:induction false} RunFromClosed(h: Heap, v: Json, i: nat)
    requires v.JList? && i <= |v.items| && Dicts(v) <= h.Keys && Closed(h)
    ensures Closed(RunFrom(h, v, i).1)
    decreases v, 0, |v.items| - i
  {
    if i < |v.items| {
      DictsOfItem(v, i);
      RunClosed(h, v.items[i]);
      var h1 := Run(h, v.items[i]).1;
      if Run(h, v.items[i]).0.Ok? {
        RunFromClosed(h1, v, i + 1);
      }
    }
  }

  method SimplifyDetailedDescription(dd: Json, ghost s: set<Dict>) returns (r: Result<()>)
    requires Dicts(dd) <= s
    modifies Dicts(dd)
    ensures (r, Snap(s)) == Run(old(Snap(s)), dd)
    decreases dd
  {
    match dd {
      case JDict(d) =>
        if "license" !in d.fields {
          return Err(KeyError);
        }
        ghost var h0 := Snap(s);
        d.fields := d.fields - {"license"};
        if "inLanguage" in d.fields {
          d.fields := d.fields["@language" := d.fields["inLanguage"]];
          d.fields := d.fields - {"inLanguage"};
        }
        assert Snap(s) == h0[d := d.fields];
        r := Ok(());
      case JList(items) =>
        var i := 0;
        while i < |items|
          invariant 0 <= i <= |items|
          invariant RunFrom(Snap(s), dd, i) == Run(old(Snap(s)), dd)
        {
          DictsOfItem(dd, i);
          var r1 := SimplifyDetailedDescription(items[i], s);
          if r1.Err? {
            return r1;
          }
          i := i + 1;
        }
        r := Ok(());
      case _ =>
        r := Err(TypeError);
    }
  }

  /** One step of the walk over a list whose `i`-th element is a dict
      with a license. */
  lemma RunStep(h: Heap, v: Json, i: nat)
    requires v.JList? && i < |v.items| && Dicts(v) <= h.Keys
    requires v.items[i].JDict? && v.items[i].d in h && "license" in h[v.items[i].d]
    ensures RunFrom(h, v, i) == RunFrom(h[v.items[i].d := SimplifyFields(h[v.items[i].d]).value], v, i + 1)
  {
    DictsOfItem(v, i);
  }

  /** A list of distinct dicts that all have a license is simplified
      without error. */
  lemma {:induction false} RunDistinct(h: Heap, v: Json, i: nat)
    requires v.JList? && i <= |v.items| && Dicts(v) <= h.Keys
    requires forall j :: i <= j < |v.items| ==> v.items[j].JDict? && v.items[j].d in h && "license" in h[v.items[j].d]
    requires forall j, k :: i <= j < k < |v.items| ==> v.items[j] != v.items[k]
    ensures RunFrom(h, v, i).0 == Ok(())
    decreases |v.items| - i
  {
    if i < |v.items| {
      RunStep(h, v, i);
      var d := v.items[i].d;
      var h1 := h[d := SimplifyFields(h[d]).value];
      assert forall j :: i + 1 <= j < |v.items| ==> v.items[j].d != d;
      RunDistinct(h1, v, i + 1);
    }
  }

  /** ... and each of those dicts is simplified on its own. */
  lemma {:induction false} RunDistinctEach(h: Heap, v: Json, i: nat, j: nat)
    requires v.JList? && i <= j < |v.items| && Dicts(v) <= h.Keys
    requires forall k :: i <= k < |v.items| ==> v.items[k].JDict? && v.items[k].d in h && "license" in h[v.items[k].d]
    requires forall k, l :: i <= k < l < |v.items| ==> v.items[k] != v.items[l]
    ensures RunFrom(h, v, i).1[v.items[j].d] == SimplifyFields(h[v.items[j].d]).value
    decreases j - i
  {
    RunStep(h, v, i);
    var d := v.items[i].d;
    var h1 := h[d := SimplifyFields(h[d]).value];
    if j == i {
      DictNotLater(h1, v, i + 1, d);
    } else {
      assert forall k :: i + 1 <= k < |v.items| ==> v.items[k].d != d;
      RunDistinctEach(h1, v, i + 1, j);
    }
  }

  /** The walk from `i` on leaves alone a dict that no later element is. */
  lemma {:induction false} DictNotLater(h: Heap, v: Json, i: nat, d: Dict)
    requires v.JList? && i <= |v.items| && Dicts(v) <= h.Keys && d in h
    requires forall j :: i <= j < |v.items| ==> v.items[j] != JDict(d)
    requires forall j :: i <= j < |v.items| ==> v.items[j].JDict?
    ensures RunFrom(h, v, i).1[d] == h[d]
    decreases |v.items| - i
  {
    if i < |v.items| {
      DictsOfItem(v, i);
      RunFrame(h, v.items[i]);
      var (r1, h1) := Run(h, v.items[i]);
      if r1.Ok? {
        DictNotLater(h1, v, i + 1, d);
      }
    }
  }

  /** The same dict twice in a list: the second `del dd['license']` finds
      the key already gone and raises. */
  lemma AliasedDictRaises(h: Heap, d: Dict)
    requires d in h && "license" in h[d]
    ensures Run(h, JList([JDict(d), JDict(d)])).0 == Err(KeyError)
  {
    var v := JList([JDict(d), JDict(d)]);
    var f := SimplifyFields(h[d]).value;
    assert Dicts(v) == {d} by {
      assert Dicts(v.items[0]) == {d};
    }
    DictsOfItem(v, 0);
    assert Run(h, v.items[0]) == (Ok(()), h[d := f]);
    DictsOfItem(v, 1);
    assert Run(h[d := f], v.items[1]) == (Err(KeyError), h[d := f]);
    assert RunFrom(h[d := f], v, 1) == (Err(KeyError), h[d := f]);
    assert Run(h, v) == RunFrom(h, v, 0);
  }

  /** The keys `simplify_detailed_description` rewrites. */
  predicate Rewritten(key: string) {
    key == "license" || key == "inLanguage" || key == "@language"
  }

  /** Every dict of `h` outside `except` has the same entry for `key`
      (present or absent) in `h'`. */
  ghost predicate Keeps(h: Heap, h': Heap, key: string, except: set<Dict>) {
    forall d :: d in h && d !in except ==>
      && d in h'
      && (key in h[d] <==> key in h'[d])
      && (key in h[d] ==> h'[d][key] == h[d][key])
  }

  /** The walk leaves every key it does not rewrite alone, in every dict. */
  lemma {:induction false} RunKeeps(h: Heap, v: Json, key: string)
    requires Dicts(v) <= h.Keys && !Rewritten(key)
    ensures Keeps(h, Run(h, v).1, key, {})
    decreases v, 1, 0
  {
    if v.JList? {
      RunFromKeeps(h, v, 0, key);
    }
  }

  lemma {:induction false} RunFromKeeps(h: Heap, v: Json, i: nat, key: string)
    requires v.JList? && i <= |v.items| && Dicts(v) <= h.Keys && !Rewritten(key)
    ensures Keeps(h, RunFrom(h, v, i).1, key, {})
    decreases v, 0, |v.items| - i
  {
    if i < |v.items| {
      DictsOfItem(v, i);
      RunKeeps(h, v.items[i], key);
      var (r1, h1) := Run(h, v.items[i]);
      if r1.Ok? {
        RunFromKeeps(h1, v, i + 1, key);
      }
    }
  }

  // ---------------------------------------------------------------------
  // gkg_search

  /** One candidate element: its `result` dict gets the element's
      `resultScore` as `resultscore`, then its detailed description, if it
      has one, is simplified. */
  function Visit(h: Heap, e: Json): (r: (Result<Dict>, Heap))
    requires Closed(h) && Dicts(e) <= h.Keys
    ensures r.1.Keys == h.Keys && Closed(r.1)
  {
    if !e.JDict? then (Err(TypeError), h)
    else if "result" !in h[e.d] || "resultScore" !in h[e.d] then (Err(KeyError), h)
    else if !h[e.d]["result"].JDict? then (Err(TypeError), h)
    else
      var res := h[e.d]["result"].d;
      var h1 := h[res := h[res]["resultscore" := h[e.d]["resultScore"]]];
      if "detailedDescription" !in h1[res] then (Ok(res), h1)
      else
        var dd := h1[res]["detailedDescription"];
        RunClosed(h1, dd);
        var (r2, h2) := Run(h1, dd);
        if r2.Err? then (Err(r2.error), h2) else (Ok(res), h2)
  }

  /** What one element does: the errors raised before anything changes,
      the result dict it yields, and the score copied into that dict. */
  lemma VisitFacts(h: Heap, e: Json)
    requires Closed(h) && Dicts(e) <= h.Keys
    ensures !e.JDict? ==> Visit(h, e) == (Err(TypeError), h)
    ensures e.JDict? && ("result" !in h[e.d] || "resultScore" !in h[e.d]) ==> Visit(h, e) == (Err(KeyError), h)
    ensures e.JDict? && "result" in h[e.d] && "resultScore" in h[e.d] && !h[e.d]["result"].JDict? ==>
      Visit(h, e) == (Err(TypeError), h)
    ensures Visit(h, e).0.Ok? ==>
      && e.JDict? && "result" in h[e.d] && "resultScore" in h[e.d]
      && h[e.d]["result"] == JDict(Visit(h, e).0.value)
    ensures Visit(h, e).0.Ok? && "detailedDescription" !in h[Visit(h, e).0.value] ==>
      var res := Visit(h, e).0.value;
      Visit(h, e).1 == h[res := h[res]["resultscore" := h[e.d]["resultScore"]]]
    ensures Visit(h, e).0.Ok? && "detailedDescription" in h[Visit(h, e).0.value] ==>
      var res := Visit(h, e).0.value;
      res !in Dicts(h[res]["detailedDescription"]) ==>
        "resultscore" in Visit(h, e).1[res] && Visit(h, e).1[res]["resultscore"] == h[e.d]["resultScore"]
  {
    if e.JDict? && "result" in h[e.d] && "resultScore" in h[e.d] && h[e.d]["result"].JDict? {
      var res := h[e.d]["result"].d;
      var h1 := h[res := h[res]["resultscore" := h[e.d]["resultScore"]]];
      if "detailedDescription" in h1[res] {
        RunFrame(h1, h1[res]["detailedDescription"]);
      }
    }
  }

  /** The loop over the kept candidates from the `i`-th on, `acc` holding
      the results so far. */
  function SearchFrom(h: Heap, elems: seq<Json>, i: nat, acc: seq<Dict>): (r: (Result<seq<Dict>>, Heap))
    requires Closed(h) && i <= |elems|
    requires forall j :: 0 <= j < |elems| ==> Dicts(elems[j]) <= h.Keys
    ensures r.1.Keys == h.Keys
    ensures r.0.Ok? ==> |r.0.value| == |acc| + |elems| - i
    ensures r.0.Ok? ==> forall k :: 0 <= k < |acc| ==> r.0.value[k] == acc[k]
    decreases |elems| - i
  {
    if i == |elems| then (Ok(acc), h)
    else
      var (r1, h1) := Visit(h, elems[i]);
      if r1.Err? then (Err(r1.error), h1) else SearchFrom(h1, elems, i + 1, acc + [r1.value])
  }

  /** A kept candidate that is not a dict makes the whole search raise,
      whether at that element or at an earlier one. */
  lemma {:induction false} SearchFromFails(h: Heap, elems: seq<Json>, i: nat, acc: seq<Dict>, j: nat)
    requires Closed(h) && i <= j < |elems|
    requires forall k :: 0 <= k < |elems| ==> Dicts(elems[k]) <= h.Keys
    requires !elems[j].JDict?
    ensures SearchFrom(h, elems, i, acc).0.Err?
    decreases j - i
  {
    VisitFacts(h, elems[i]);
    var (r1, h1) := Visit(h, elems[i]);
    if r1.Ok? {
      SearchFromFails(h1, elems, i + 1, acc + [r1.value], j);
    }
  }

  function Search(h: Heap, candidates: seq<Json>, top: int): (r: (Result<seq<Dict>>, Heap))
    requires Closed(h)
    requires forall j :: 0 <= j < |candidates| ==> Dicts(candidates[j]) <= h.Keys
    ensures r.1.Keys == h.Keys
    ensures r.0.Ok? ==> |r.0.value| == |Slice(candidates, 0, top)|
    ensures r.0.Ok? && top >= 0 ==> |r.0.value| <= top
  {
    var elems := Slice(candidates, 0, top);
    assert forall j :: 0 <= j < |elems| ==> elems[j] == candidates[j];
    SearchFrom(h, elems, 0, [])
  }

  /** A change that keeps `key` outside `x`, then one that keeps it
      everywhere, together keep it outside `x`. */
  lemma KeepsTrans(h: Heap, h1: Heap, h2: Heap, key: string, x: set<Dict>)
    requires Keeps(h, h1, key, x) && Keeps(h1, h2, key, {})
    ensures Keeps(h, h2, key, x)
  {
  }

  /** Setting one key of one dict keeps every other key everywhere, and
      every key in the other dicts. */
  lemma KeepsSet(h: Heap, d: Dict, k: string, v: Json, key: string)
    requires d in h
    ensures key != k ==> Keeps(h, h[d := h[d][k := v]], key, {})
    ensures Keeps(h, h[d := h[d][k := v]], key, {d})
  {
  }

  /** One element changes no key but `resultscore`, in no dict. */
  lemma VisitKeeps(h: Heap, e: Json, key: string)
    requires Closed(h) && Dicts(e) <= h.Keys && !Rewritten(key) && key != "resultscore"
    ensures Keeps(h, Visit(h, e).1, key, {})
  {
    if e.JDict? && "result" in h[e.d] && "resultScore" in h[e.d] && h[e.d]["result"].JDict? {
      ScoredKeeps(h, e, key);
    } else {
      assert Visit(h, e).1 == h;
    }
  }

  /** `VisitKeeps` for an element that gets as far as scoring its result. */
  lemma ScoredKeeps(h: Heap, e: Json, key: string)
    requires Closed(h) && Dicts(e) <= h.Keys && !Rewritten(key) && key != "resultscore"
    requires e.JDict? && "result" in h[e.d] && "resultScore" in h[e.d] && h[e.d]["result"].JDict?
    ensures Keeps(h, Visit(h, e).1, key, {})
  {
    var res := h[e.d]["result"].d;
    var h1 := h[res := h[res]["resultscore" := h[e.d]["resultScore"]]];
    KeepsSet(h, res, "resultscore", h[e.d]["resultScore"], key);
    if "detailedDescription" in h1[res] {
      var dd := h1[res]["detailedDescription"];
      assert Visit(h, e).1 == Run(h1, dd).1;
      RunKeeps(h1, dd, key);
      KeepsTrans(h, h1, Run(h1, dd).1, key, {});
    } else {
      assert Visit(h, e).1 == h1;
    }
  }

  /** The dict an element yields is its `result` dict, and the element's
      `resultScore` becomes that dict's `resultscore`, in no other dict. */
  lemma VisitScore(h: Heap, e: Json)
    requires Closed(h) && Dicts(e) <= h.Keys
    ensures Visit(h, e).0.Ok? ==>
      var res := Visit(h, e).0.value;
      && e.JDict? && e.d in h && "result" in h[e.d] && h[e.d]["result"] == JDict(res)
      && Keeps(h, Visit(h, e).1, "resultscore", {res})
      && "resultScore" in h[e.d] && "resultscore" in Visit(h, e).1[res]
      && Visit(h, e).1[res]["resultscore"] == h[e.d]["resultScore"]
  {
    if e.JDict? && "result" in h[e.d] && "resultScore" in h[e.d] && h[e.d]["result"].JDict? {
      var res := h[e.d]["result"].d;
      var h1 := h[res := h[res]["resultscore" := h[e.d]["resultScore"]]];
      KeepsSet(h, res, "resultscore", h[e.d]["resultScore"], "resultscore");
      if "detailedDescription" in h1[res] {
        var dd := h1[res]["detailedDescription"];
        assert Visit(h, e).1 == Run(h1, dd).1;
        RunKeeps(h1, dd, "resultscore");
        KeepsTrans(h, h1, Run(h1, dd).1, "resultscore", {res});
      }
    }
  }

  /** The kept candidates from the `i`-th on held, in `h`, the dicts
      `rs[off..]` as their `result`s, in order. */
  ghost predicate ResultsFrom(h: Heap, elems: seq<Json>, i: nat, rs: seq<Dict>, off: int) {
    forall k :: i <= k < |elems| ==>
      && elems[k].JDict? && elems[k].d in h && "result" in h[elems[k].d]
      && 0 <= off + k - i < |rs| && h[elems[k].d]["result"] == JDict(rs[off + k - i])
  }

  /** The dicts `rs[off..]` hold in `hf`, as `resultscore`, the
      `resultScore` that the kept candidates from the `i`-th on held in `h`. */
  ghost predicate ScoresFrom(h: Heap, hf: Heap, elems: seq<Json>, i: nat, rs: seq<Dict>, off: int) {
    forall k :: i <= k < |elems| ==>
      && elems[k].JDict? && elems[k].d in h && "resultScore" in h[elems[k].d]
      && 0 <= off + k - i < |rs| && rs[off + k - i] in hf && "resultscore" in hf[rs[off + k - i]]
      && hf[rs[off + k - i]]["resultscore"] == h[elems[k].d]["resultScore"]
  }

  /** The kept candidates from the `i`-th on hold pairwise distinct
      `result` dicts. */
  ghost predicate DistinctResults(h: Heap, elems: seq<Json>, i: nat) {
    forall j, k :: i <= j < k < |elems| ==>
      elems[j].JDict? && elems[k].JDict? && elems[j].d in h && elems[k].d in h &&
      "result" in h[elems[j].d] && "result" in h[elems[k].d] ==>
      h[elems[j].d]["result"] != h[elems[k].d]["result"]
  }

  /** No kept candidate from the `i`-th on holds `d` as its `result`. */
  ghost predicate NoneYields(h: Heap, elems: seq<Json>, i: nat, d: Dict) {
    forall k :: i <= k < |elems| && elems[k].JDict? && elems[k].d in h && "result" in h[elems[k].d] ==>
      h[elems[k].d]["result"] != JDict(d)
  }

  /** The results from the `i`-th kept candidate on are, in order, the
      `result` dicts those candidates held before the search. */
  lemma {:induction false} SearchFromResults(h: Heap, elems: seq<Json>, i: nat, acc: seq<Dict>)
    requires Closed(h) && i <= |elems|
    requires forall j :: 0 <= j < |elems| ==> Dicts(elems[j]) <= h.Keys
    ensures var r := SearchFrom(h, elems, i, acc).0;
      r.Ok? ==> ResultsFrom(h, elems, i, r.value, |acc|)
    decreases |elems| - i, 1
  {
    if i < |elems| {
      VisitScore(h, elems[i]);
      VisitKeeps(h, elems[i], "result");
      var (r1, h1) := Visit(h, elems[i]);
      if r1.Ok? {
        ResultsCase(h, h1, elems, i, acc, r1.value);
        assert SearchFrom(h, elems, i, acc) == SearchFrom(h1, elems, i + 1, acc + [r1.value]);
      }
    }
  }

  /** The rest of the search once the `i`-th candidate has yielded `res`. */
  lemma {:induction false} ResultsCase(h: Heap, h1: Heap, elems: seq<Json>, i: nat, acc: seq<Dict>, res: Dict)
    requires Closed(h1) && i < |elems| && h1.Keys == h.Keys
    requires forall j :: 0 <= j < |elems| ==> Dicts(elems[j]) <= h.Keys
    requires Keeps(h, h1, "result", {})
    requires elems[i].JDict? && elems[i].d in h && "result" in h[elems[i].d] && h[elems[i].d]["result"] == JDict(res)
    ensures var r := SearchFrom(h1, elems, i + 1, acc + [res]).0;
      r.Ok? ==> ResultsFrom(h, elems, i, r.value, |acc|)
    decreases |elems| - i, 0
  {
    var acc1 := acc + [res];
    SearchFromResults(h1, elems, i + 1, acc1);
    var r := SearchFrom(h1, elems, i + 1, acc1).0;
    if r.Ok? {
      assert r.value[|acc|] == res;
      ResultsStep(h, h1, elems, i, r.value, |acc|);
    }
  }

  /** One step of `SearchFromResults`: the first element's result dict is
      read before the visit, the later ones are unchanged by it. */
  lemma ResultsStep(h: Heap, h1: Heap, elems: seq<Json>, i: nat, rs: seq<Dict>, off: nat)
    requires i < |elems| && h1.Keys == h.Keys && off < |rs| && Keeps(h, h1, "result", {})
    requires elems[i].JDict? && elems[i].d in h && "result" in h[elems[i].d] && h[elems[i].d]["result"] == JDict(rs[off])
    requires ResultsFrom(h1, elems, i + 1, rs, off + 1)
    ensures ResultsFrom(h, elems, i, rs, off)
  {
    forall k | i <= k < |elems|
      ensures && elems[k].JDict? && elems[k].d in h && "result" in h[elems[k].d]
              && 0 <= off + k - i < |rs| && h[elems[k].d]["result"] == JDict(rs[off + k - i])
    {
      if k > i {
        assert off + 1 + k - (i + 1) == off + k - i;
      }
    }
  }

  /** A dict that no remaining candidate yields keeps its `resultscore`. */
  lemma {:induction false} SearchFromKeepsScore(h: Heap, elems: seq<Json>, i: nat, acc: seq<Dict>, d: Dict)
    requires Closed(h) && i <= |elems| && d in h
    requires forall j :: 0 <= j < |elems| ==> Dicts(elems[j]) <= h.Keys
    requires NoneYields(h, elems, i, d)
    ensures SearchFrom(h, elems, i, acc).0.Ok? ==> Keeps(h, SearchFrom(h, elems, i, acc).1, "resultscore", h.Keys - {d})
    decreases |elems| - i
  {
    if i < |elems| {
      VisitScore(h, elems[i]);
      VisitKeeps(h, elems[i], "result");
      var (r1, h1) := Visit(h, elems[i]);
      if r1.Ok? {
        SearchFromKeepsScore(h1, elems, i + 1, acc + [r1.value], d);
      }
    }
  }

  /** After the first element's visit the later ones still hold distinct
      result dicts, none of them the one the first element yielded. */
  lemma DistinctStep(h: Heap, h1: Heap, elems: seq<Json>, i: nat, res: Dict)
    requires i < |elems| && h1.Keys == h.Keys && Keeps(h, h1, "result", {})
    requires DistinctResults(h, elems, i)
    requires elems[i].JDict? && elems[i].d in h && "result" in h[elems[i].d] && h[elems[i].d]["result"] == JDict(res)
    ensures DistinctResults(h1, elems, i + 1)
    ensures NoneYields(h1, elems, i + 1, res)
  {
    forall k | i + 1 <= k < |elems| && elems[k].JDict? && elems[k].d in h1 && "result" in h1[elems[k].d]
      ensures h1[elems[k].d]["result"] != JDict(res)
    {
      assert h[elems[k].d]["result"] != h[elems[i].d]["result"];
    }
  }

  /** One step of `SearchFromScores`: the first result keeps the score it
      was given, the later ones read scores the visit left alone. */
  lemma ScoresStep(h: Heap, h1: Heap, hf: Heap, elems: seq<Json>, i: nat, rs: seq<Dict>, off: nat)
    requires i < |elems| && h1.Keys == h.Keys && off < |rs| && Keeps(h, h1, "resultScore", {})
    requires elems[i].JDict? && elems[i].d in h && "resultScore" in h[elems[i].d]
    requires rs[off] in hf && "resultscore" in hf[rs[off]] && hf[rs[off]]["resultscore"] == h[elems[i].d]["resultScore"]
    requires ScoresFrom(h1, hf, elems, i + 1, rs, off + 1)
    ensures ScoresFrom(h, hf, elems, i, rs, off)
  {
    forall k | i <= k < |elems|
      ensures && elems[k].JDict? && elems[k].d in h && "resultScore" in h[elems[k].d]
              && 0 <= off + k - i < |rs| && rs[off + k - i] in hf && "resultscore" in hf[rs[off + k - i]]
              && hf[rs[off + k - i]]["resultscore"] == h[elems[k].d]["resultScore"]
    {
      if k > i {
        assert off + 1 + k - (i + 1) == off + k - i;
      }
    }
    assert forall k :: i <= k < |elems| ==>
      && elems[k].JDict? && elems[k].d in h && "resultScore" in h[elems[k].d]
      && 0 <= off + k - i < |rs| && rs[off + k - i] in hf && "resultscore" in hf[rs[off + k - i]]
      && hf[rs[off + k - i]]["resultscore"] == h[elems[k].d]["resultScore"];
  }

  /** With distinct result dicts, each result ends the search holding, as
      `resultscore`, the `resultScore` of the candidate it came from. */
  lemma {:induction false} SearchFromScores(h: Heap, elems: seq<Json>, i: nat, acc: seq<Dict>)
    requires Closed(h) && i <= |elems|
    requires forall j :: 0 <= j < |elems| ==> Dicts(elems[j]) <= h.Keys
    requires DistinctResults(h, elems, i)
    ensures var (r, hf) := SearchFrom(h, elems, i, acc);
      r.Ok? ==> ScoresFrom(h, hf, elems, i, r.value, |acc|)
    decreases |elems| - i, 1
  {
    if i < |elems| {
      VisitScore(h, elems[i]);
      VisitKeeps(h, elems[i], "result");
      VisitKeeps(h, elems[i], "resultScore");
      var (r1, h1) := Visit(h, elems[i]);
      if r1.Ok? {
        ScoresCase(h, h1, elems, i, acc, r1.value);
        assert SearchFrom(h, elems, i, acc) == SearchFrom(h1, elems, i + 1, acc + [r1.value]);
      }
    }
  }

  /** The rest of the search once the `i`-th candidate has given its
      result dict `res` its score. */
  lemma {:induction false} ScoresCase(h: Heap, h1: Heap, elems: seq<Json>, i: nat, acc: seq<Dict>, res: Dict)
    requires Closed(h1) && i < |elems| && h1.Keys == h.Keys
    requires forall j :: 0 <= j < |elems| ==> Dicts(elems[j]) <= h.Keys
    requires DistinctResults(h, elems, i)
    requires Keeps(h, h1, "result", {}) && Keeps(h, h1, "resultScore", {})
    requires elems[i].JDict? && elems[i].d in h && "result" in h[elems[i].d] && h[elems[i].d]["result"] == JDict(res)
    requires "resultScore" in h[elems[i].d] && res in h1 && "resultscore" in h1[res]
    requires h1[res]["resultscore"] == h[elems[i].d]["resultScore"]
    ensures var (r, hf) := SearchFrom(h1, elems, i + 1, acc + [res]);
      r.Ok? ==> ScoresFrom(h, hf, elems, i, r.value, |acc|)
    decreases |elems| - i, 0
  {
    var acc1 := acc + [res];
    DistinctStep(h, h1, elems, i, res);
    SearchFromScores(h1, elems, i + 1, acc1);
    SearchFromKeepsScore(h1, elems, i + 1, acc1, res);
    var (r, hf) := SearchFrom(h1, elems, i + 1, acc1);
    if r.Ok? {
      assert r.value[|acc|] == res;
      assert res !in h1.Keys - {res};
      ScoresStep(h, h1, hf, elems, i, r.value, |acc|);
    }
  }


  /** `gkg_search`'s results are, in order, the `result` dicts of its first
      `top` candidates. */
  lemma SearchResults(h: Heap, candidates: seq<Json>, top: int)
    requires Closed(h)
    requires forall j :: 0 <= j < |candidates| ==> Dicts(candidates[j]) <= h.Keys
    ensures var r := Search(h, candidates, top).0;
      r.Ok? ==> forall k :: 0 <= k < |r.value| ==>
        && candidates[k].JDict? && candidates[k].d in h && "result" in h[candidates[k].d]
        && h[candidates[k].d]["result"] == JDict(r.value[k])
  {
    var elems := Slice(candidates, 0, top);
    assert forall j :: 0 <= j < |elems| ==> elems[j] == candidates[j];
    SearchFromResults(h, elems, 0, []);
    var r := SearchFrom(h, elems, 0, []).0;
    assert Search(h, candidates, top).0 == r;
    if r.Ok? {
      forall k | 0 <= k < |r.value|
        ensures && candidates[k].JDict? && candidates[k].d in h && "result" in h[candidates[k].d]
                && h[candidates[k].d]["result"] == JDict(r.value[k])
      {
        assert elems[k] == candidates[k];
      }
    }
  }

  /** When those result dicts are distinct, each returned dict carries its
      candidate's `resultScore` as `resultscore`. */
  lemma SearchScores(h: Heap, candidates: seq<Json>, top: int)
    requires Closed(h)
    requires forall j :: 0 <= j < |candidates| ==> Dicts(candidates[j]) <= h.Keys
    requires DistinctResults(h, Slice(candidates, 0, top), 0)
    ensures var (r, hf) := Search(h, candidates, top);
      r.Ok? ==> forall k :: 0 <= k < |r.value| ==>
        && candidates[k].JDict? && candidates[k].d in h && "resultScore" in h[candidates[k].d]
        && r.value[k] in hf && "resultscore" in hf[r.value[k]]
        && hf[r.value[k]]["resultscore"] == h[candidates[k].d]["resultScore"]
  {
    var elems := Slice(candidates, 0, top);
    assert forall j :: 0 <= j < |elems| ==> elems[j] == candidates[j];
    SearchFromScores(h, elems, 0, []);
    var (r, hf) := SearchFrom(h, elems, 0, []);
    assert Search(h, candidates, top) == (r, hf);
    if r.Ok? {
      forall k | 0 <= k < |r.value|
        ensures && candidates[k].JDict? && candidates[k].d in h && "resultScore" in h[candidates[k].d]
                && r.value[k] in hf && "resultscore" in hf[r.value[k]]
                && hf[r.value[k]]["resultscore"] == h[candidates[k].d]["resultScore"]
      {
        assert elems[k] == candidates[k];
      }
    }
  }

  /** The body of `gkg_search`'s loop for one element. */
  method VisitElement(element: Json, ghost s: set<Dict>) returns (r: Result<Dict>)
    requires Closed(Snap(s)) && Dicts(element) <= s
    modifies s
    ensures (r, Snap(s)) == Visit(old(Snap(s)), element)
  {
    if !element.JDict? {
      return Err(TypeError);
    }
    var e := element.d;
    if "result" !in e.fields || "resultScore" !in e.fields {
      return Err(KeyError);
    }
    var result := e.fields["result"];
    if !result.JDict? {
      return Err(TypeError);
    }
    var res := result.d;
    ghost var h0 := Snap(s);
    res.fields := res.fields["resultscore" := e.fields["resultScore"]];
    assert Snap(s) == h0[res := res.fields];
    if "detailedDescription" in res.fields {
      var r2 := SimplifyDetailedDescription(res.fields["detailedDescription"], s);
      if r2.Err? {
        return Err(r2.error);
      }
    }
    r := Ok(res);
  }

  /** `gkg_search` after the query: the first `top` candidates, in order,
      each turned into its result dict. `s` is a set of dicts that holds
      every dict the candidates reach. */
  method GkgSearchResults(candidates: seq<Json>, top: int, ghost s: set<Dict>) returns (r: Result<seq<Dict>>)
    requires Closed(Snap(s))
    requires forall j :: 0 <= j < |candidates| ==> Dicts(candidates[j]) <= s
    modifies s
    ensures (r, Snap(s)) == Search(old(Snap(s)), candidates, top)
  {
    var elems := Slice(candidates, 0, top);
    assert forall j :: 0 <= j < |elems| ==> elems[j] == candidates[j];
    var results: seq<Dict> := [];
    var i := 0;
    while i < |elems|
      invariant 0 <= i <= |elems|
      invariant Closed(Snap(s))
      invariant SearchFrom(Snap(s), elems, i, results) == SearchFrom(old(Snap(s)), elems, 0, [])
    {
      var r1 := VisitElement(elems[i], s);
      if r1.Err? {
        return Err(r1.error);
      }
      results := results + [r1.value];
      i := i + 1;
    }
    r := Ok(results);
  }

  /** `link`: the top hit of a search with `top=1`, or None when there is
      none; an empty response gives None, any other gives the result of
      its first element. */
  method Link(candidates: seq<Json>, ghost s: set<Dict>) returns (r: Result<Option<Dict>>)
    requires Closed(Snap(s))
    requires forall j :: 0 <= j < |candidates| ==> Dicts(candidates[j]) <= s
    modifies s
    ensures var run := Search(old(Snap(s)), candidates, 1);
      && Snap(s) == run.1
      && (run.0.Err? ==> r == Err(run.0.error))
      && (run.0.Ok? ==> r == Ok(if run.0.value == [] then None else Some(run.0.value[0])))
    ensures r == Ok(None) <==> candidates == []
    ensures r.Ok? && r.value.Some? ==>
      candidates[0].JDict? && "result" in old(candidates[0].d.fields) &&
      old(candidates[0].d.fields)["result"] == JDict(r.value.value)
  {
    ghost var h0 := Snap(s);
    var results := GkgSearchResults(candidates, 1, s);
    if results.Err? {
      return Err(results.error);
    }
    LinkFirst(h0, candidates);
    r := Ok(if results.value == [] then None else Some(results.value[0]));
  }

  /** A search with `top=1` keeps at most the first candidate: it has no
      result exactly when there is no candidate, and otherwise its one
      result is the `result` dict of the first candidate. */
  lemma LinkFirst(h: Heap, candidates: seq<Json>)
    requires Closed(h)
    requires forall j :: 0 <= j < |candidates| ==> Dicts(candidates[j]) <= h.Keys
    ensures Search(h, candidates, 1).0 == Ok([]) <==> candidates == []
    ensures Search(h, candidates, 1).0.Ok? && candidates != [] ==>
      |Search(h, candidates, 1).0.value| == 1 &&
      candidates[0].JDict? && "result" in h[candidates[0].d] &&
      h[candidates[0].d]["result"] == JDict(Search(h, candidates, 1).0.value[0])
  {
    if candidates != [] {
      var elems := Slice(candidates, 0, 1);
      assert elems == [candidates[0]];
      VisitFacts(h, candidates[0]);
      var (r1, h1) := Visit(h, candidates[0]);
      if r1.Ok? {
        assert SearchFrom(h1, elems, 1, [r1.value]) == (Ok([r1.value]), h1);
      }
    }
  }

  // ---------------------------------------------------------------------
  // summary1 and summary

  /** What `summary1` returns: `(@id, name, description)`, `(@id, name)`,
      or `''` for a falsy hit. */
  datatype Summary =
    | Described(id: Json, name: Json, description: string)
    | Named(id: Json, name: Json)
    | NoHit

  /** What `summary` returns: one summary per element of a list, the
      summary of a single hit, or 'No match'. */
  datatype Summaries = Each(items: seq<Summary>) | One(item: Summary) | NoMatch

  function Own(v: Json): set<Dict> {
    if v.JDict? then {v.d} else {}
  }

  /** Python truthiness. */
  predicate Truthy(v: Json)
    reads Own(v)
  {
    match v
    case JStr(s) => s != []
    case JNum(x) => x != 0.0
    case JBool(b) => b
    case JNull => false
    case JList(items) => items != []
    case JDict(d) => d.fields != map[]
  }

  /** The dicts `summary1` reads: the hit and its detailed description. */
  function Frame(hit: Json): (r: set<Dict>)
    reads Own(hit)
    ensures Own(hit) <= r
  {
    match hit
    case JDict(d) => {d} + (if "detailedDescription" in d.fields then Own(d.fields["detailedDescription"]) else {})
    case _ => {}
  }

  function Summary1(hit: Json): (r: Result<Summary>)
    reads Frame(hit)
    ensures !Truthy(hit) <==> r == Ok(NoHit)
    ensures Truthy(hit) && !hit.JDict? ==> r == Err(TypeError)
    ensures r.Ok? && r.value != NoHit ==>
      && hit.JDict? && "@id" in hit.d.fields && "name" in hit.d.fields
      && r.value.id == hit.d.fields["@id"] && r.value.name == hit.d.fields["name"]
    ensures r.Ok? && r.value.Named? ==> "detailedDescription" !in hit.d.fields
    ensures r.Ok? && r.value.Described? ==>
      "detailedDescription" in hit.d.fields
    ensures r.Ok? && r.value.Described? ==>
      var dd := hit.d.fields["detailedDescription"];
      && dd.JDict?
      && "articleBody" in dd.d.fields && dd.d.fields["articleBody"].JStr?
      && |r.value.description| <= 63 && EndsWith(r.value.description, "...")
      && StartsWith(dd.d.fields["articleBody"].s, r.value.description[..|r.value.description| - 3])
      && (|dd.d.fields["articleBody"].s| <= 60 ==> r.value.description == dd.d.fields["articleBody"].s + "...")
      && (|dd.d.fields["articleBody"].s| > 60 ==> r.value.description == dd.d.fields["articleBody"].s[..60] + "...")
  {
    if !Truthy(hit) then Ok(NoHit)
    else if !hit.JDict? then Err(TypeError)
    else
      var f := hit.d.fields;
      if "@id" !in f || "name" !in f then Err(KeyError)
      else if "detailedDescription" !in f then Ok(Named(f["@id"], f["name"]))
      else
        var dd := f["detailedDescription"];
        if !dd.JDict? then Err(TypeError)
        else if "articleBody" !in dd.d.fields then Err(KeyError)
        else if !dd.d.fields["articleBody"].JStr? then Err(TypeError)
        else
          var body := dd.d.fields["articleBody"].s;
          var cut := Slice(body, 0, 60);
          assert (cut + "...")[..|cut + "..."| - 3] == cut;
          Ok(Described(f["@id"], f["name"], cut + "..."))
  }

  function Owns(hits: Json): set<Dict> {
    match hits
    case JList(items) => set i, o | 0 <= i < |items| && o in Own(items[i]) :: o
    case _ => Own(hits)
  }

  function Frames(hits: Json): set<Dict>
    reads Owns(hits)
  {
    match hits
    case JList(items) => set i, o | 0 <= i < |items| && o in Frame(items[i]) :: o
    case _ => Frame(hits)
  }

  /** `[summary1(h) for h in items]`, raising with the first element that
      raises. */
  function SummaryEach(items: seq<Json>): (r: Result<seq<Summary>>)
    reads set i, o | 0 <= i < |items| && o in Frame(items[i]) :: o
    ensures r.Ok? <==> forall i :: 0 <= i < |items| ==> Summary1(items[i]).Ok?
    ensures r.Ok? ==> |r.value| == |items| && forall i :: 0 <= i < |items| ==> Summary1(items[i]) == Ok(r.value[i])
    ensures r.Err? ==> exists i ::
      && 0 <= i < |items| && Summary1(items[i]) == Err(r.error)
      && forall j :: 0 <= j < i ==> Summary1(items[j]).Ok?
    decreases |items|
  {
    if items == [] then Ok([])
    else
      var first := Summary1(items[0]);
      var rest := SummaryEach(items[1..]);
      if first.Err? then Err(first.error)
      else if rest.Err? then Err(rest.error)
      else Ok([first.value] + rest.value)
  }

  function SummaryOf(hits: Json): (r: Result<Summaries>)
    reads Owns(hits), Frames(hits)
    ensures hits.JList? ==> (r.Ok? <==> SummaryEach(hits.items).Ok?)
    ensures hits.JList? && r.Ok? ==> r == Ok(Each(SummaryEach(hits.items).value))
    ensures !hits.JList? && Truthy(hits) ==>
      (r.Ok? <==> Summary1(hits).Ok?) && (r.Ok? ==> r.value == One(Summary1(hits).value))
    ensures !hits.JList? && !Truthy(hits) ==> r == Ok(NoMatch)
  {
    match hits
    case JList(items) =>
      var each := SummaryEach(items);
      if each.Err? then Err(each.error) else Ok(Each(each.value))
    case _ =>
      if Truthy(hits) then
        var one := Summary1(hits);
        if one.Err? then Err(one.error) else Ok(One(one.value))
      else Ok(NoMatch)
  }
}
