/** Bookkeeping of the topic-report linker: `truncate`, `bad_nc`,
    `link_summary`, the link-confusion counts of `analyze_links`, the
    best-link selection and per-qid merge of `process_named_entity_mentions`,
    and the first-sighting memo and counters of `process_nominal_concepts`.

    The module-level dictionaries the report code mutates are the fields of
    the class `Reports`; nested dictionaries keyed first by topic part are
    flattened into maps keyed by pairs. The linker is a function parameter. */
module ScaleReports {
  import opened Wrappers
  import opened PyStr
  import SpacyPlus

  // ---------------------------------------------------------------------
  // truncate, bad_nc

  /** `truncate`: the string if it fits, else its first `max` characters
      (Python's `string[:max]`) and "...". */
  function Truncate(s: string, max: int): (r: string)
    ensures |s| <= max ==> r == s
    ensures |s| > max ==> EndsWith(r, "...") && StartsWith(s, r[..|r| - 3])
    ensures |s| > max && max >= 0 ==> |r| == max + 3
  {
    if |s| <= max then s
    else
      var head := Slice(s, 0, max);
      assert s[0..] == s;
      assert (head + "...")[..|head|] == head;
      head + "..."
  }

  /** A token `bad_nc` objects to: one that starts or ends with a hyphen. */
  predicate Dashed(token: string) {
    token != [] && (token[0] == '-' || token[|token| - 1] == '-')
  }

  /** The verdict of `bad_nc`'s loop over the tokens: the first empty token
      raises IndexError, the first hyphenated one answers true. */
  function BadNcTokens(tokens: seq<string>): (r: Result<bool>)
    ensures r.Err? ==> r.error == IndexError
    decreases |tokens|
  {
    if tokens == [] then Ok(false)
    else if tokens[0] == [] then Err(IndexError)
    else if Dashed(tokens[0]) then Ok(true)
    else BadNcTokens(tokens[1..])
  }

  /** `bad_nc` on the text of a nominal concept. */
  method BadNc(text: string) returns (r: Result<bool>)
    ensures r == BadNcTokens(SplitOn(text, {' '}))
  {
    var tokens := SplitOn(text, {' '});
    var i := 0;
    while i < |tokens|
      invariant 0 <= i <= |tokens|
      invariant BadNcTokens(tokens[i..]) == BadNcTokens(tokens)
    {
      var token := tokens[i];
      assert tokens[i..][0] == token && tokens[i..][1..] == tokens[i + 1..];
      if token == [] {
        return Err(IndexError);
      }
      if token[0] == '-' || token[|token| - 1] == '-' {
        return Ok(true);
      }
      i := i + 1;
    }
    return Ok(false);
  }

  /** Without empty tokens `bad_nc` is true exactly when some token is
      hyphenated; it raises only when there is an empty token. */
  lemma {:induction false} BadNcMeaning(tokens: seq<string>)
    ensures (forall i :: 0 <= i < |tokens| ==> tokens[i] != []) ==>
      BadNcTokens(tokens) == Ok(exists i :: 0 <= i < |tokens| && Dashed(tokens[i]))
    ensures BadNcTokens(tokens).Err? ==> exists i :: 0 <= i < |tokens| && tokens[i] == []
    decreases |tokens|
  {
    if tokens != [] {
      var tl := tokens[1..];
      BadNcMeaning(tl);
      assert forall i :: 0 <= i < |tl| ==> tl[i] == tokens[i + 1];
      if exists i :: 0 <= i < |tl| && Dashed(tl[i]) {
        var i :| 0 <= i < |tl| && Dashed(tl[i]);
        assert Dashed(tokens[i + 1]);
      }
      if exists i :: 0 <= i < |tokens| && Dashed(tokens[i]) {
        var i :| 0 <= i < |tokens| && Dashed(tokens[i]);
        if i > 0 {
          assert Dashed(tl[i - 1]);
        }
      }
      if BadNcTokens(tokens).Err? && tokens[0] != [] {
        var i :| 0 <= i < |tl| && tl[i] == [];
        assert tokens[i + 1] == [];
      }
    }
  }

  // ---------------------------------------------------------------------
  // Links, link_summary

  /** A link record as the linker returns it (the fields the report code
      reads or writes). */
  datatype Link = Link(id: string, qid: string, labels: map<string, string>,
                       descriptions: map<string, string>, score: real, rank: real, counts: int)

  /** `link_summary`: id, English label or "", English description cut to
      80 characters or "". */
  function LinkSummary(link: Link): (r: (string, string, string))
    ensures r.0 == link.id
    ensures "en" in link.labels ==> r.1 == link.labels["en"]
    ensures "en" !in link.labels ==> r.1 == ""
    ensures "en" !in link.descriptions ==> r.2 == ""
    ensures "en" in link.descriptions ==>
      var d := link.descriptions["en"];
      && |r.2| <= 83
      && (|d| <= 80 ==> r.2 == d)
      && (|d| > 80 ==> r.2 == d[..80] + "...")
  {
    var english := if "en" in link.labels then link.labels["en"] else "";
    var desc := if "en" in link.descriptions then Truncate(link.descriptions["en"], 80) else "";
    (link.id, english, desc)
  }

  // ---------------------------------------------------------------------
  // analyze_links

  function IdSet(links: seq<Link>): set<string> {
    set l | l in links :: l.id
  }

  /** The id-collecting loop of `analyze_links`. */
  method DistinctIds(links: seq<Link>) returns (ids: set<string>)
    ensures ids == IdSet(links)
  {
    ids := {};
    for i := 0 to |links|
      invariant ids == IdSet(links[..i])
    {
      assert links[..i + 1] == links[..i] + [links[i]];
      ids := ids + {links[i].id};
    }
    assert links[..|links|] == links;
  }

  /** The bucket `analyze_links` increments: 0 for a single link, else the
      number of distinct ids. */
  function Bucket(links: seq<Link>): int {
    if |links| == 1 then 0 else |IdSet(links)|
  }

  /** A single link lands in bucket 0; two or more links land in bucket 1
      exactly when they agree on the id, and in a bucket above 1 exactly
      when two of them disagree. */
  lemma {:induction false} BucketMeaning(links: seq<Link>)
    ensures |links| == 1 ==> Bucket(links) == 0
    ensures |links| >= 2 ==> Bucket(links) >= 1
    ensures |links| >= 2 ==>
      (Bucket(links) > 1 <==> exists i, j :: 0 <= i < |links| && 0 <= j < |links| && links[i].id != links[j].id)
  {
    if |links| >= 2 {
      var ids := IdSet(links);
      assert links[0].id in ids;
      if exists i, j :: 0 <= i < |links| && 0 <= j < |links| && links[i].id != links[j].id {
        var i, j :| 0 <= i < |links| && 0 <= j < |links| && links[i].id != links[j].id;
        assert {links[i].id, links[j].id} <= ids;
        assert |{links[i].id, links[j].id}| == 2;
        SubsetSize({links[i].id, links[j].id}, ids);
      } else {
        assert ids == {links[0].id} by {
          forall x | x in ids ensures x == links[0].id {
            var l :| l in links && l.id == x;
            var k :| 0 <= k < |links| && links[k] == l;
          }
        }
      }
    }
  }

  lemma SubsetSize<T>(a: set<T>, b: set<T>)
    requires a <= b
    ensures |a| <= |b|
  {
    assert b == a + (b - a);
  }

  type Em = (string, string)
  type Confusion = (string, string, real)

  /** The confusion record: each link's id, English label and score; a link
      without an English label raises KeyError. */
  function Confusions(links: seq<Link>): (r: Result<seq<Confusion>>)
    ensures r.Ok? <==> forall i :: 0 <= i < |links| ==> "en" in links[i].labels
    ensures r.Ok? ==> |r.value| == |links|
    ensures r.Ok? ==> forall i :: 0 <= i < |links| ==>
      r.value[i].0 == links[i].id && r.value[i].1 == links[i].labels["en"] && r.value[i].2 == links[i].score
  {
    if forall i :: 0 <= i < |links| ==> "en" in links[i].labels then
      Ok(seq(|links|, i requires 0 <= i < |links| => (links[i].id, links[i].labels["en"], links[i].score)))
    else
      assert exists i :: 0 <= i < |links| && "en" !in links[i].labels;
      Err(KeyError)
  }

  function Get0<K>(m: map<K, int>, k: K): int {
    if k in m then m[k] else 0
  }

  function GetSet<K, V>(m: map<K, set<V>>, k: K): set<V> {
    if k in m then m[k] else {}
  }

  function GetSeq<K, V>(m: map<K, seq<V>>, k: K): seq<V> {
    if k in m then m[k] else []
  }

  // ---------------------------------------------------------------------
  // The report tables

  /** A topic part: (topic id, "title" | "description" | "report"). */
  type Part = (string, string)

  /** What `nc2link` holds for a concept: NOLINK or a link. */
  datatype NcLink = NoLink | Linked(link: Link)

  /** The link-confusion statistics: `link_analysis` and
      `confused_links`. */
  datatype Analysis = Analysis(linkAnalysis: map<int, int>, confusedLinks: seq<(Em, seq<Confusion>)>)

  /** The nominal-concept tables: `nc_count`, `nc2sents`, `topic2nc_count`
      (keyed by part and text), `nc2link` and `ncl_in_topic`. */
  datatype Concepts = Concepts(
    ncCount: map<string, int>,
    nc2sents: map<string, seq<string>>,
    topicNcCount: map<(Part, string), int>,
    nc2link: map<string, NcLink>,
    nclInTopic: map<Part, set<string>>)

  /** The link-sighting counters: `el_count`, `topic2elid_count` (keyed by
      part and id) and `el2topics`. */
  datatype Sightings = Sightings(
    elCount: map<string, int>,
    topicElidCount: map<(Part, string), int>,
    el2topics: map<string, set<Part>>)

  /** The module-level dictionaries, grouped by concern, with
      `topic2links`. */
  datatype Tables = Tables(analysis: Analysis, topicLinks: map<Part, map<string, Link>>,
                           concepts: Concepts, sightings: Sightings)

  /** `analyze_links(em, links)`: the bucket is counted first, then a
      confusion is recorded when the ids disagree; building it may raise. */
  function AnalyzeStep(a: Analysis, em: Em, links: seq<Link>): (Analysis, bool) {
    var b := Bucket(links);
    var a1 := a.(linkAnalysis := a.linkAnalysis[b := Get0(a.linkAnalysis, b) + 1]);
    if |links| == 1 || b <= 1 then (a1, false)
    else
      var c := Confusions(links);
      if c.Err? then (a1, true)
      else (a1.(confusedLinks := a1.confusedLinks + [(em, c.value)]), false)
  }

  // ---------------------------------------------------------------------
  // Best link per mention text, merged per qid

  /** `min(links, key=rank)`: the first link of least rank. */
  function BestIndex(links: seq<Link>): (r: nat)
    requires links != []
    ensures r < |links|
    ensures forall j :: 0 <= j < |links| ==> links[r].rank <= links[j].rank
    ensures forall j :: 0 <= j < r ==> links[j].rank > links[r].rank
    decreases |links|
  {
    if |links| == 1 then 0
    else
      var init := links[..|links| - 1];
      var k := BestIndex(init);
      assert forall j :: 0 <= j < |init| ==> init[j] == links[j];
      if links[|links| - 1].rank < links[k].rank then |links| - 1 else k
  }

  /** The links found for one mention text. */
  datatype Group = Group(emText: string, links: seq<Link>)

  predicate NonEmptyGroups(groups: seq<Group>) {
    forall i :: 0 <= i < |groups| ==> groups[i].links != []
  }

  /** The best link of a group, with `counts` set to the group's size. */
  function Best(g: Group): Link
    requires g.links != []
  {
    g.links[BestIndex(g.links)].(counts := |g.links|)
  }

  /** `final_links` after the first `k` groups: a new qid takes the best
      link, a known qid adds its counts. */
  function MergeUpto(groups: seq<Group>, k: nat): map<string, Link>
    requires NonEmptyGroups(groups) && k <= |groups|
  {
    if k == 0 then map[]
    else
      MergeOne(MergeUpto(groups, k - 1), Best(groups[k - 1]))
  }

  /** One group's best link into `final_links`: a new qid takes the link, a
      known qid adds its counts. */
  function MergeOne(m: map<string, Link>, b: Link): map<string, Link> {
    if b.qid !in m then m[b.qid := b]
    else m[b.qid := m[b.qid].(counts := m[b.qid].counts + b.counts)]
  }

  /** The first of the first `k` groups whose best link has `qid`, or -1. */
  function FirstGroupFor(groups: seq<Group>, k: nat, qid: string): (r: int)
    requires NonEmptyGroups(groups) && k <= |groups|
    ensures -1 <= r < k
    ensures r >= 0 ==> Best(groups[r]).qid == qid
    ensures forall j :: 0 <= j < k && (r == -1 || j < r) ==> Best(groups[j]).qid != qid
  {
    if k == 0 then -1
    else
      var p := FirstGroupFor(groups, k - 1, qid);
      if p >= 0 then p else if Best(groups[k - 1]).qid == qid then k - 1 else -1
  }

  /** The total number of links of the first `k` groups whose best link has
      `qid`. */
  function CountFor(groups: seq<Group>, k: nat, qid: string): int
    requires NonEmptyGroups(groups) && k <= |groups|
  {
    if k == 0 then 0
    else CountFor(groups, k - 1, qid) + (if Best(groups[k - 1]).qid == qid then |groups[k - 1].links| else 0)
  }

  /** Merging keeps one entry per qid: the best link of the first group that
      chose it, with `counts` the sum of the sizes of all groups that chose
      it. */
  lemma {:induction false} MergeCounts(groups: seq<Group>, k: nat, qid: string)
    requires NonEmptyGroups(groups) && k <= |groups|
    ensures qid in MergeUpto(groups, k) <==> FirstGroupFor(groups, k, qid) >= 0
    ensures FirstGroupFor(groups, k, qid) == -1 ==> CountFor(groups, k, qid) == 0
    ensures qid in MergeUpto(groups, k) ==>
      MergeUpto(groups, k)[qid] == Best(groups[FirstGroupFor(groups, k, qid)]).(counts := CountFor(groups, k, qid))
  {
    if k > 0 {
      MergeCounts(groups, k - 1, qid);
      var m := MergeUpto(groups, k - 1);
      var b := Best(groups[k - 1]);
      if b.qid == qid && qid !in m {
        assert FirstGroupFor(groups, k, qid) == k - 1;
        assert CountFor(groups, k, qid) == |groups[k - 1].links|;
      }
    }
  }

  /** The state of the merge loop of `process_named_entity_mentions`: the
      tables, `final_links`, and whether `analyze_links` raised. */
  datatype NeState = NeState(t: Tables, merged: map<string, Link>, failed: bool)

  /** The merge loop from group `k` on: analyze the group's links (which may
      raise and end the loop), merge its best link into `final_links`, and
      publish `final_links` as `topic2links[part]`. */
  function NeFrom(p: NeState, part: Part, em: Em, groups: seq<Group>, k: nat): NeState
    requires NonEmptyGroups(groups) && k <= |groups|
    decreases |groups| - k
  {
    if k == |groups| || p.failed then p
    else
      var a := AnalyzeStep(p.t.analysis, em, groups[k].links);
      if a.1 then NeState(p.t.(analysis := a.0), p.merged, true)
      else
        var m := MergeOne(p.merged, Best(groups[k]));
        NeFrom(NeState(p.t.(analysis := a.0, topicLinks := p.t.topicLinks[part := m]), m, false), part, em, groups, k + 1)
  }

  function NeRun(t0: Tables, part: Part, em: Em, groups: seq<Group>): NeState
    requires NonEmptyGroups(groups)
  {
    NeFrom(NeState(t0, map[], false), part, em, groups, 0)
  }

  /** Unless `analyze_links` raises, `topic2links[part]` ends as the merge of
      all groups (when there is one); it raises only on a group with a link
      that has no English label. */
  lemma {:induction false} NeFromFacts(p: NeState, part: Part, em: Em, groups: seq<Group>, k: nat)
    requires NonEmptyGroups(groups) && k <= |groups|
    requires !p.failed && p.merged == MergeUpto(groups, k)
    requires k > 0 ==> part in p.t.topicLinks && p.t.topicLinks[part] == p.merged
    ensures var r := NeFrom(p, part, em, groups, k);
      && (!r.failed && |groups| > 0 ==> part in r.t.topicLinks && r.t.topicLinks[part] == MergeUpto(groups, |groups|))
      && (r.failed ==> exists i :: k <= i < |groups| && Confusions(groups[i].links).Err?)
    decreases |groups| - k
  {
    if k < |groups| {
      var a := AnalyzeStep(p.t.analysis, em, groups[k].links);
      if !a.1 {
        var m := MergeOne(p.merged, Best(groups[k]));
        NeFromFacts(NeState(p.t.(analysis := a.0, topicLinks := p.t.topicLinks[part := m]), m, false), part, em, groups, k + 1);
      }
    }
  }

  /** The whole loop, from the empty `final_links`. */
  lemma NeRunFacts(t0: Tables, part: Part, em: Em, groups: seq<Group>)
    requires NonEmptyGroups(groups)
    ensures var r := NeRun(t0, part, em, groups);
      && (!r.failed && |groups| > 0 ==> part in r.t.topicLinks && r.t.topicLinks[part] == MergeUpto(groups, |groups|))
      && (r.failed ==> exists i :: 0 <= i < |groups| && Confusions(groups[i].links).Err?)
  {
    NeFromFacts(NeState(t0, map[], false), part, em, groups, 0);
  }

  // ---------------------------------------------------------------------
  // Nominal concepts

  /** A nominal concept as matched: its text, its last token's text and
      lemma, and the text of its sentence. */
  datatype Nominal = Nominal(text: string, lastText: string, lemmaText: string, sentence: string)

  /** The linker call for a concept text and its sentence; None stands for
      a falsy answer, which becomes NOLINK. */
  type Linker = (string, string) -> Option<Link>

  /** One counted sighting of link `id` in `part`. */
  function CountSighting(s: Sightings, part: Part, id: string): Sightings {
    Sightings(s.elCount[id := Get0(s.elCount, id) + 1],
              s.topicElidCount[(part, id) := Get0(s.topicElidCount, (part, id)) + 1],
              s.el2topics[id := GetSet(s.el2topics, id) + {part}])
  }

  /** The state of the concept loop: the concept tables and sighting
      counters, the links found in this part, the concept texts sent to the
      linker, and the exception raised, if any. */
  datatype NcRun = NcRun(c: Concepts, s: Sightings, links: seq<Link>, lookups: seq<string>, raised: Option<PyError>)

  /** The tables with the concept tables and counters of a run. */
  function WithRun(t: Tables, run: NcRun): Tables {
    t.(concepts := run.c, sightings := run.s)
  }

  function NcText(nc: Nominal): string {
    SpacyPlus.GetNcText(nc.text, nc.lastText, nc.lemmaText)
  }

  /** The sentence as recorded: its text without newlines. */
  function NcSentence(nc: Nominal): string {
    ReplaceAll(nc.sentence, "\n", "")
  }

  /** `bad_nc` on a concept. */
  function BadVerdict(nc: Nominal): Result<bool> {
    BadNcTokens(SplitOn(nc.text, {' '}))
  }

  /** One concept: skip a bad one, else visit its text. */
  function NcStep(run: NcRun, part: Part, nc: Nominal, linker: Linker): NcRun
    requires run.raised.None?
  {
    var bad := BadVerdict(nc);
    if bad.Err? then run.(raised := Some(bad.error))
    else if bad.value then run
    else
      var text := NcText(nc);
      var sent := NcSentence(nc);
      NcVisit(run, part, text, sent, linker(text, sent))
  }

  /** The sighting of concept text `text` in sentence `sent` and `part`,
      counted. */
  function Tally(c: Concepts, part: Part, text: string, sent: string): Concepts {
    c.(ncCount := c.ncCount[text := Get0(c.ncCount, text) + 1],
       nc2sents := c.nc2sents[text := GetSeq(c.nc2sents, text) + [sent]],
       topicNcCount := c.topicNcCount[(part, text) := Get0(c.topicNcCount, (part, text)) + 1])
  }

  /** A concept that is not bad: count the sighting; link the text on its
      first sighting anywhere, else reuse `nc2link` (KeyError if missing);
      count the link unless it is NOLINK. */
  function NcVisit(run: NcRun, part: Part, text: string, sent: string, found: Option<Link>): NcRun
    requires run.raised.None?
  {
    var count := Get0(run.c.ncCount, text) + 1;
    var c1 := Tally(run.c, part, text, sent);
    if count == 1 then
      var nl := if found.Some? then Linked(found.value) else NoLink;
      var c2 := c1.(nc2link := c1.nc2link[text := nl]);
      if nl.NoLink? then NcRun(c2, run.s, run.links, run.lookups + [text], None)
      else
        var l := nl.link;
        var c3 := c2.(nclInTopic := c2.nclInTopic[part := GetSet(c2.nclInTopic, part) + {l.id}]);
        NcRun(c3, CountSighting(run.s, part, l.id), run.links + [l], run.lookups + [text], None)
    else if text !in c1.nc2link then NcRun(c1, run.s, run.links, run.lookups, Some(KeyError))
    else if c1.nc2link[text].NoLink? then run.(c := c1)
    else run.(c := c1, s := CountSighting(run.s, part, c1.nc2link[text].link.id))
  }

  /** The concept loop from concept `k` on; it stops at the first
      exception. */
  function NcFrom(run: NcRun, part: Part, ncs: seq<Nominal>, linker: Linker, k: nat): NcRun
    requires k <= |ncs|
    decreases |ncs| - k
  {
    if k == |ncs| || run.raised.Some? then run
    else NcFrom(NcStep(run, part, ncs[k], linker), part, ncs, linker, k + 1)
  }

  /** The concept loop of one topic part, from the tables `t0`. */
  function NcLoop(t0: Tables, part: Part, ncs: seq<Nominal>, linker: Linker): NcRun {
    NcFrom(NcRun(t0.concepts, t0.sightings, [], [], None), part, ncs, linker, 0)
  }

  /** Every concept counted so far has an `nc2link` entry. */
  ghost predicate Memoized(c: Concepts) {
    forall x :: Get0(c.ncCount, x) > 0 ==> x in c.nc2link
  }

  ghost predicate CountsNonNegative(c: Concepts) {
    forall x :: x in c.ncCount ==> c.ncCount[x] >= 0
  }

  /** A visit keeps the memo complete and the counts non-negative, and
      then a text seen before always finds its link: a step can raise only
      from `bad_nc`. */
  lemma NcVisitKeepsMemo(run: NcRun, part: Part, text: string, sent: string, found: Option<Link>)
    requires run.raised.None? && Memoized(run.c) && CountsNonNegative(run.c)
    ensures Memoized(NcVisit(run, part, text, sent, found).c)
    ensures CountsNonNegative(NcVisit(run, part, text, sent, found).c)
    ensures NcVisit(run, part, text, sent, found).raised.None?
  {
    var t := NcVisit(run, part, text, sent, found).c;
    if Get0(run.c.ncCount, text) > 0 {
      assert text in run.c.nc2link;
    }
    forall x | Get0(t.ncCount, x) > 0 ensures x in t.nc2link {
      if x != text {
        assert Get0(run.c.ncCount, x) == Get0(t.ncCount, x);
      }
    }
  }

  /** From tables with a complete memo the whole loop never raises
      KeyError, and it leaves the memo complete. */
  lemma {:induction false} NcFromKeepsMemo(run: NcRun, part: Part, ncs: seq<Nominal>, linker: Linker, k: nat)
    requires k <= |ncs| && run.raised.None? && Memoized(run.c) && CountsNonNegative(run.c)
    ensures NcFrom(run, part, ncs, linker, k).raised != Some(KeyError)
    ensures Memoized(NcFrom(run, part, ncs, linker, k).c)
    decreases |ncs| - k
  {
    if k < |ncs| {
      var next := NcStep(run, part, ncs[k], linker);
      if BadVerdict(ncs[k]) == Ok(false) {
        var text := NcText(ncs[k]);
        var sent := NcSentence(ncs[k]);
        NcVisitKeepsMemo(run, part, text, sent, linker(text, sent));
      }
      if next.raised.None? {
        NcFromKeepsMemo(next, part, ncs, linker, k + 1);
      }
    }
  }

  /** Concept `nc` is not bad and counts as `x`. */
  predicate Sees(nc: Nominal, x: string) {
    BadVerdict(nc) == Ok(false) && NcText(nc) == x
  }

  /** The sightings of `x` among the concepts from `k` on. */
  function SightingsFrom(ncs: seq<Nominal>, k: nat, x: string): nat
    requires k <= |ncs|
    decreases |ncs| - k
  {
    if k == |ncs| then 0
    else (if Sees(ncs[k], x) then 1 else 0) + SightingsFrom(ncs, k + 1, x)
  }

  /** One visit as seen from one concept text `x`: its count grows by one
      when it is the visited text, and it is sent to the linker exactly
      when it is visited with no earlier count. */
  lemma NcVisitSighting(run: NcRun, part: Part, text: string, sent: string, found: Option<Link>, x: string)
    requires run.raised.None? && NcVisit(run, part, text, sent, found).raised.None?
    ensures var next := NcVisit(run, part, text, sent, found);
      var first := text == x && Get0(run.c.ncCount, x) == 0;
      && Get0(next.c.ncCount, x) == Get0(run.c.ncCount, x) + (if text == x then 1 else 0)
      && multiset(next.lookups)[x] == multiset(run.lookups)[x] + (if first then 1 else 0)
  {
  }

  /** A concept text is counted once per sighting, and it is sent to the
      linker at most once, exactly when it is sighted with no earlier
      count. */
  lemma {:induction false} NcFromSightings(run: NcRun, part: Part, ncs: seq<Nominal>, linker: Linker, k: nat, x: string)
    requires k <= |ncs| && run.raised.None?
    requires Get0(run.c.ncCount, x) >= 0
    requires x in run.lookups ==> Get0(run.c.ncCount, x) > 0
    requires multiset(run.lookups)[x] <= 1
    ensures var r := NcFrom(run, part, ncs, linker, k);
      r.raised.None? ==>
        && Get0(r.c.ncCount, x) == Get0(run.c.ncCount, x) + SightingsFrom(ncs, k, x)
        && (x in r.lookups <==> x in run.lookups || (Get0(run.c.ncCount, x) == 0 && SightingsFrom(ncs, k, x) > 0))
        && multiset(r.lookups)[x] <= 1
    decreases |ncs| - k
  {
    if k < |ncs| {
      var next := NcStep(run, part, ncs[k], linker);
      if next.raised.None? {
        if BadVerdict(ncs[k]) == Ok(false) {
          var text := NcText(ncs[k]);
          var sent := NcSentence(ncs[k]);
          NcVisitSighting(run, part, text, sent, linker(text, sent), x);
        }
        NcFromSightings(next, part, ncs, linker, k + 1, x);
      }
    }
  }

  /** The concept loop of a part, as seen from one concept text. */
  lemma NcLoopSightings(t0: Tables, part: Part, ncs: seq<Nominal>, linker: Linker, x: string)
    requires Get0(t0.concepts.ncCount, x) >= 0
    ensures var r := NcLoop(t0, part, ncs, linker);
      r.raised.None? ==>
        && Get0(r.c.ncCount, x) == Get0(t0.concepts.ncCount, x) + SightingsFrom(ncs, 0, x)
        && (x in r.lookups <==> Get0(t0.concepts.ncCount, x) == 0 && SightingsFrom(ncs, 0, x) > 0)
        && multiset(r.lookups)[x] <= 1
  {
    NcFromSightings(NcRun(t0.concepts, t0.sightings, [], [], None), part, ncs, linker, 0, x);
  }

  /** A sighting of a linked concept adds exactly one to that link's counts
      (overall and in the part) and records the part; any other id, and
      every count after a NOLINK, is left alone. */
  lemma NcSightingCounts(run: NcRun, part: Part, text: string, sent: string, found: Option<Link>)
    requires run.raised.None? && Memoized(run.c) && CountsNonNegative(run.c)
    ensures var next := NcVisit(run, part, text, sent, found);
      && text in next.c.nc2link
      && (next.c.nc2link[text].NoLink? ==> next.s == run.s)
      && (next.c.nc2link[text].Linked? ==>
            var id := next.c.nc2link[text].link.id;
            && Get0(next.s.elCount, id) == Get0(run.s.elCount, id) + 1
            && Get0(next.s.topicElidCount, (part, id)) == Get0(run.s.topicElidCount, (part, id)) + 1
            && part in GetSet(next.s.el2topics, id)
            && (forall other :: other != id ==> Get0(next.s.elCount, other) == Get0(run.s.elCount, other)))
  {
  }

  /** The merge of the concept links into `topic2links[part]`: `counts` is
      the concept link's overall count (a defaultdict read, which may insert
      a zero). */
  function NcMergeStep(t: Tables, part: Part, link: Link): Tables {
    var qid := link.qid;
    var c := Get0(t.sightings.elCount, qid);
    var tl := if part in t.topicLinks then t.topicLinks[part] else map[];
    var tl' := if qid !in tl then tl[qid := link.(counts := c)]
               else tl[qid := tl[qid].(counts := tl[qid].counts + c)];
    t.(sightings := t.sightings.(elCount := t.sightings.elCount[qid := c]), topicLinks := t.topicLinks[part := tl'])
  }

  function NcMergeUpto(t: Tables, part: Part, links: seq<Link>, k: nat): Tables
    requires k <= |links|
  {
    if k == 0 then t else NcMergeStep(NcMergeUpto(t, part, links, k - 1), part, links[k - 1])
  }

  function LinksOf(t: Tables, part: Part): map<string, Link> {
    if part in t.topicLinks then t.topicLinks[part] else map[]
  }

  function CountQid(links: seq<Link>, k: nat, qid: string): nat
    requires k <= |links|
  {
    if k == 0 then 0 else CountQid(links, k - 1, qid) + (if links[k - 1].qid == qid then 1 else 0)
  }

  /** One merge step as seen from one qid: its overall count is read, not
      changed; its entry is created or grows by that count when the link
      has that qid, and is untouched otherwise. */
  lemma NcMergeStepAt(t: Tables, part: Part, link: Link, qid: string)
    ensures Get0(NcMergeStep(t, part, link).sightings.elCount, qid) == Get0(t.sightings.elCount, qid)
    ensures link.qid == qid ==> qid in LinksOf(NcMergeStep(t, part, link), part)
    ensures link.qid == qid ==>
      LinksOf(NcMergeStep(t, part, link), part)[qid].counts ==
        (if qid in LinksOf(t, part) then LinksOf(t, part)[qid].counts else 0) + Get0(t.sightings.elCount, qid)
    ensures link.qid != qid ==> (qid in LinksOf(NcMergeStep(t, part, link), part) <==> qid in LinksOf(t, part))
    ensures link.qid != qid && qid in LinksOf(t, part) ==>
      LinksOf(NcMergeStep(t, part, link), part)[qid] == LinksOf(t, part)[qid]
  {
  }

  /** Merging reads the overall counts (inserting a zero for a missing
      qid) but never changes one. */
  lemma {:induction false} NcMergeKeepsCount(t: Tables, part: Part, links: seq<Link>, k: nat, qid: string)
    requires k <= |links|
    ensures Get0(NcMergeUpto(t, part, links, k).sightings.elCount, qid) == Get0(t.sightings.elCount, qid)
  {
    if k > 0 {
      NcMergeKeepsCount(t, part, links, k - 1, qid);
      NcMergeStepAt(NcMergeUpto(t, part, links, k - 1), part, links[k - 1], qid);
    }
  }

  /** After merging, a qid has an entry exactly when it had one or some
      concept link has it. */
  lemma {:induction false} NcMergeHas(t: Tables, part: Part, links: seq<Link>, k: nat, qid: string)
    requires k <= |links|
    ensures qid in LinksOf(NcMergeUpto(t, part, links, k), part) <==>
      qid in LinksOf(t, part) || CountQid(links, k, qid) > 0
  {
    if k > 0 {
      NcMergeHas(t, part, links, k - 1, qid);
      NcMergeStepAt(NcMergeUpto(t, part, links, k - 1), part, links[k - 1], qid);
    }
  }

  /** What the merge adds to the entry of `qid`: the qid's overall count
      `e`, once for each of the first `k` concept links with that qid. */
  function Gain(links: seq<Link>, k: nat, qid: string, e: int): int
    requires k <= |links|
  {
    if k == 0 then 0 else Gain(links, k - 1, qid, e) + (if links[k - 1].qid == qid then e else 0)
  }

  /** The gain is the overall count times the number of links with the qid. */
  lemma {:induction false} GainIsProduct(links: seq<Link>, k: nat, qid: string, e: int)
    requires k <= |links|
    ensures Gain(links, k, qid, e) == CountQid(links, k, qid) * e
  {
    if k > 0 {
      GainIsProduct(links, k - 1, qid, e);
      if links[k - 1].qid == qid {
        var n := CountQid(links, k - 1, qid);
        assert (n + 1) * e == n * e + e;
      }
    }
  }

  /** After merging, an entry's counts grew by the qid's overall count once
      per concept link with that qid. */
  lemma {:induction false} NcMergeCounts(t: Tables, part: Part, links: seq<Link>, k: nat, qid: string)
    requires k <= |links|
    ensures qid in LinksOf(NcMergeUpto(t, part, links, k), part) ==>
      LinksOf(NcMergeUpto(t, part, links, k), part)[qid].counts ==
        (if qid in LinksOf(t, part) then LinksOf(t, part)[qid].counts else 0) +
        Gain(links, k, qid, Get0(t.sightings.elCount, qid))
  {
    if k > 0 {
      var prev := NcMergeUpto(t, part, links, k - 1);
      NcMergeCounts(t, part, links, k - 1, qid);
      NcMergeHas(t, part, links, k - 1, qid);
      NcMergeKeepsCount(t, part, links, k - 1, qid);
      NcMergeStepAt(prev, part, links[k - 1], qid);
      if links[k - 1].qid == qid && qid !in LinksOf(prev, part) {
        GainNone(links, k - 1, qid, Get0(t.sightings.elCount, qid));
      }
    }
  }

  lemma {:induction false} GainNone(links: seq<Link>, k: nat, qid: string, e: int)
    requires k <= |links| && CountQid(links, k, qid) == 0
    ensures Gain(links, k, qid, e) == 0
  {
    if k > 0 { GainNone(links, k - 1, qid, e); }
  }

  // ---------------------------------------------------------------------
  // The module-level state

  class Reports {
    var linkAnalysis: map<int, int>
    var confusedLinks: seq<(Em, seq<Confusion>)>
    var topicLinks: map<Part, map<string, Link>>
    var ncCount: map<string, int>
    var nc2sents: map<string, seq<string>>
    var topicNcCount: map<(Part, string), int>
    var nc2link: map<string, NcLink>
    var nclInTopic: map<Part, set<string>>
    var elCount: map<string, int>
    var topicElidCount: map<(Part, string), int>
    var el2topics: map<string, set<Part>>

    function Snapshot(): Tables
      reads this
    {
      Tables(Analysis(linkAnalysis, confusedLinks), topicLinks,
             Concepts(ncCount, nc2sents, topicNcCount, nc2link, nclInTopic),
             Sightings(elCount, topicElidCount, el2topics))
    }

    /** The tables as the program starts: all empty. */
    constructor ()
      ensures Snapshot() == Tables(Analysis(map[], []), map[],
                                   Concepts(map[], map[], map[], map[], map[]),
                                   Sightings(map[], map[], map[]))
    {
      linkAnalysis, confusedLinks, topicLinks := map[], [], map[];
      ncCount, nc2sents, topicNcCount, nc2link, nclInTopic := map[], map[], map[], map[], map[];
      elCount, topicElidCount, el2topics := map[], map[], map[];
    }

    /** `analyze_links`. */
    method AnalyzeLinks(em: Em, links: seq<Link>) returns (r: Result<()>)
      modifies this
      ensures Snapshot() == old(Snapshot()).(analysis := AnalyzeStep(old(Snapshot()).analysis, em, links).0)
      ensures r.Err? <==> AnalyzeStep(old(Snapshot()).analysis, em, links).1
    {
      if |links| == 1 {
        linkAnalysis := linkAnalysis[0 := Get0(linkAnalysis, 0) + 1];
        return Ok(());
      }
      var linkids := DistinctIds(links);
      linkAnalysis := linkAnalysis[|linkids| := Get0(linkAnalysis, |linkids|) + 1];
      if |linkids| > 1 {
        var confused := Confusions(links);
        if confused.Err? {
          return Err(confused.error);
        }
        confusedLinks := confusedLinks + [(em, confused.value)];
      }
      r := Ok(());
    }

    /** The merge loop of `process_named_entity_mentions` over the groups
        of links per mention text. `em` is the mention key left over from
        the mention loop, which is what the source passes to
        `analyze_links` for every group. */
    method MergeNamedEntityLinks(part: Part, em: Em, groups: seq<Group>) returns (r: Result<()>)
      requires NonEmptyGroups(groups)
      modifies this
      ensures Snapshot() == NeRun(old(Snapshot()), part, em, groups).t
      ensures r.Err? <==> NeRun(old(Snapshot()), part, em, groups).failed
    {
      var finalLinks: map<string, Link> := map[];
      for i := 0 to |groups|
        invariant NeFrom(NeState(Snapshot(), finalLinks, false), part, em, groups, i) == NeRun(old(Snapshot()), part, em, groups)
      {
        ghost var cur := NeState(Snapshot(), finalLinks, false);
        var links := groups[i].links;
        var a := AnalyzeLinks(em, links);
        ghost var analyzed := Snapshot();
        if a.Err? {
          assert NeFrom(cur, part, em, groups, i) == NeState(analyzed, finalLinks, true);
          return Err(a.error);
        }
        var best := links[BestIndex(links)].(counts := |links|);
        assert best == Best(groups[i]);
        finalLinks := MergeOne(finalLinks, best);
        topicLinks := topicLinks[part := finalLinks];
        assert Snapshot() == analyzed.(topicLinks := analyzed.topicLinks[part := finalLinks]);
        assert NeFrom(cur, part, em, groups, i) == NeFrom(NeState(Snapshot(), finalLinks, false), part, em, groups, i + 1);
      }
      r := Ok(());
    }

    /** One counted sighting of link `linkId` in `part`. */
    method CountLink(part: Part, linkId: string)
      modifies this
      ensures Snapshot() == old(Snapshot()).(sightings := CountSighting(old(Snapshot()).sightings, part, linkId))
    {
      elCount := elCount[linkId := Get0(elCount, linkId) + 1];
      topicElidCount := topicElidCount[(part, linkId) := Get0(topicElidCount, (part, linkId)) + 1];
      el2topics := el2topics[linkId := GetSet(el2topics, linkId) + {part}];
    }

    /** The counters of a sighting of concept text `nctext` in sentence
        `ncsent`. */
    method RecordSighting(part: Part, nctext: string, ncsent: string)
      modifies this
      ensures Snapshot() == old(Snapshot()).(concepts := Tally(old(Snapshot()).concepts, part, nctext, ncsent))
    {
      ncCount := ncCount[nctext := Get0(ncCount, nctext) + 1];
      nc2sents := nc2sents[nctext := GetSeq(nc2sents, nctext) + [ncsent]];
      topicNcCount := topicNcCount[(part, nctext) := Get0(topicNcCount, (part, nctext)) + 1];
    }

    /** The body of the concept loop for a concept that is not bad, with
        its text and sentence: `links` and `lookups` are the part's links
        and the texts sent to the linker so far. */
    method Visit(part: Part, nctext: string, ncsent: string, linker: Linker,
                 links: seq<Link>, ghost lookups: seq<string>)
      returns (raised: Option<PyError>, newLinks: seq<Link>, ghost newLookups: seq<string>)
      modifies this
      ensures var run := NcRun(old(Snapshot()).concepts, old(Snapshot()).sightings, links, lookups, None);
        var next := NcVisit(run, part, nctext, ncsent, linker(nctext, ncsent));
        && Snapshot() == WithRun(old(Snapshot()), next)
        && newLinks == next.links && newLookups == next.lookups && raised == next.raised
    {
      newLinks, newLookups, raised := links, lookups, None;
      RecordSighting(part, nctext, ncsent);
      var link: Link;
      if ncCount[nctext] == 1 {
        var found := linker(nctext, ncsent);
        var nl := if found.Some? then Linked(found.value) else NoLink;
        nc2link := nc2link[nctext := nl];
        newLookups := lookups + [nctext];
        if nl.NoLink? {
          return;
        }
        link := nl.link;
        nclInTopic := nclInTopic[part := GetSet(nclInTopic, part) + {link.id}];
        newLinks := links + [link];
      } else {
        if nctext !in nc2link {
          return Some(KeyError), newLinks, newLookups;
        }
        if nc2link[nctext].NoLink? {
          return;
        }
        link := nc2link[nctext].link;
      }
      CountLink(part, link.id);
    }

    /** The loop over the nominal concepts of one topic part. */
    method ConceptLoop(part: Part, ncs: seq<Nominal>, linker: Linker)
      returns (raised: Option<PyError>, links: seq<Link>, ghost lookups: seq<string>)
      modifies this
      ensures var run := NcLoop(old(Snapshot()), part, ncs, linker);
        && Snapshot() == WithRun(old(Snapshot()), run)
        && links == run.links && lookups == run.lookups && raised == run.raised
    {
      links, lookups, raised := [], [], None;
      for i := 0 to |ncs|
        invariant raised.None?
        invariant Snapshot() == old(Snapshot()).(concepts := Snapshot().concepts, sightings := Snapshot().sightings)
        invariant NcFrom(NcRun(Snapshot().concepts, Snapshot().sightings, links, lookups, None), part, ncs, linker, i) ==
                  NcLoop(old(Snapshot()), part, ncs, linker)
      {
        ghost var cur := NcRun(Snapshot().concepts, Snapshot().sightings, links, lookups, None);
        var nc := ncs[i];
        var bad := BadNc(nc.text);
        if bad.Err? {
          ghost var stop := cur.(raised := Some(bad.error));
          assert NcFrom(cur, part, ncs, linker, i) == NcFrom(stop, part, ncs, linker, i + 1) == stop;
          return Some(bad.error), links, lookups;
        }
        if bad.value {
          continue;
        }
        var nctext := SpacyPlus.GetNcText(nc.text, nc.lastText, nc.lemmaText);
        var ncsent := ReplaceAll(nc.sentence, "\n", "");
        raised, links, lookups := Visit(part, nctext, ncsent, linker, links, lookups);
        assert NcStep(cur, part, nc, linker) == NcRun(Snapshot().concepts, Snapshot().sightings, links, lookups, raised);
        if raised.Some? {
          ghost var stop := NcStep(cur, part, nc, linker);
          assert NcFrom(cur, part, ncs, linker, i) == NcFrom(stop, part, ncs, linker, i + 1) == stop;
          return;
        }
      }
    }

    /** One concept link merged into `topic2links[part]`. */
    method MergeConceptLink(part: Part, link: Link)
      modifies this
      ensures Snapshot() == NcMergeStep(old(Snapshot()), part, link)
    {
      var qid := link.qid;
      var c := Get0(elCount, qid);
      elCount := elCount[qid := c];
      var tl := if part in topicLinks then topicLinks[part] else map[];
      if qid !in tl {
        tl := tl[qid := link.(counts := c)];
      } else {
        tl := tl[qid := tl[qid].(counts := tl[qid].counts + c)];
      }
      topicLinks := topicLinks[part := tl];
    }

    /** The merge of the concept links of a part into `topic2links[part]`. */
    method MergeConceptLinks(part: Part, links: seq<Link>)
      modifies this
      ensures Snapshot() == NcMergeUpto(old(Snapshot()), part, links, |links|)
    {
      for k := 0 to |links|
        invariant Snapshot() == NcMergeUpto(old(Snapshot()), part, links, k)
      {
        MergeConceptLink(part, links[k]);
      }
    }

    /** `process_nominal_concepts` for one topic part: the concept loop, then
        the merge of the links found into `topic2links[part]`. */
    method ProcessNominalConcepts(part: Part, ncs: seq<Nominal>, linker: Linker)
      returns (r: Result<()>, ghost lookups: seq<string>)
      modifies this
      ensures var run := NcLoop(old(Snapshot()), part, ncs, linker);
        && lookups == run.lookups
        && (run.raised.Some? ==> r == Err(run.raised.value) && Snapshot() == WithRun(old(Snapshot()), run))
        && (run.raised.None? ==> r == Ok(()) && Snapshot() == NcMergeUpto(WithRun(old(Snapshot()), run), part, run.links, |run.links|))
    {
      var raised, links;
      raised, links, lookups := ConceptLoop(part, ncs, linker);
      if raised.Some? {
        return Err(raised.value), lookups;
      }
      MergeConceptLinks(part, links);
      r := Ok(());
    }
  }
}
