/** The type-name registry of entity_types.py: a table from Wikidata type
    ids to the names they go by (Wikidata labels, spaCy labels, ...), the
    name -> ids index built from it at import time, and `wd_types`, which
    expands type names into Wikidata ids. */
module EntityTypes {
  import opened Wrappers

  /** One `'Qnnn' : [names]` item of the table. */
  datatype Entry = Entry(wdType: string, names: seq<string>)

  /** The items of the `wdtype2names` dict literal as written, in order,
      including the repeated key Q4438121. */
  const WdType2NamesLiteral: seq<Entry> := [
    Entry("Q2221906", ["geographic location", "LOC"]),
    Entry("Q2424752", ["product", "PRODUCT"]),
    Entry("Q56061", ["GPE"]),
    Entry("Q5", ["human", "PER", "PERSON"]),
    Entry("Q13226383", ["facility", "FAC"]),
    Entry("Q1656682", ["event", "EVENT"]),
    Entry("Q33742", ["natural language", "LANGUAGE"]),
    Entry("Q17537576", ["creative work", "WORK_OF_ART"]),
    Entry("Q43229", ["organization", "ORG"]),
    Entry("Q16334295", ["group of humans", "NORP"]),
    Entry("Q7210356", ["political organisation", "NORP"]),
    Entry("Q191780", ["ordinal number", "ORDINAL"]),
    Entry("Q21199", ["CARDINAL", "natural number", "Numerals that do not fall under another type"]),
    Entry("Q1368", ["MONEY", "Monetary values, including unit"]),
    Entry("Q205892", ["calendar date", "DATE"]),
    Entry("Q573", ["DATE", "day"]),
    Entry("Q47018901", ["DATE", "month"]),
    Entry("Q3186692", ["DATE", "year", "calendar year"]),
    Entry("Q1248784", ["airport"]),
    Entry("Q4438121", ["sports organization", "sports team", "athletic team"]),
    Entry("Q515", ["city"]),
    Entry("Q7930989", ["city"]),
    Entry("Q15284", ["municipality", "city", "town", "village"]),
    Entry("Q486972", ["populated place", "settlement", "community"]),
    Entry("Q6256", ["country"]),
    Entry("Q1190554", ["occurrence"]),
    Entry("Q4438121", ["sports organization", "sports team"])
  ]

  predicate KeysUnique(d: seq<Entry>) {
    forall i, j :: 0 <= i < j < |d| ==> d[i].wdType != d[j].wdType
  }

  /** Adds one literal item to a dict: an existing key keeps its place and
      takes the new value; a new key goes at the end. */
  function Insert(d: seq<Entry>, e: Entry): (r: seq<Entry>)
    decreases |d|
  {
    if d == [] then [e]
    else if d[0].wdType == e.wdType then [e] + d[1..]
    else [d[0]] + Insert(d[1..], e)
  }

  /** The dict a literal evaluates to. */
  function DictFromLiteral(lit: seq<Entry>): seq<Entry>
    decreases |lit|
  {
    if lit == [] then [] else Insert(DictFromLiteral(lit[..|lit| - 1]), lit[|lit| - 1])
  }

  /** The value the last item with key `k` gives, if any item has it. */
  function LastValue(lit: seq<Entry>, k: string): Option<seq<string>>
    decreases |lit|
  {
    if lit == [] then None
    else if lit[|lit| - 1].wdType == k then Some(lit[|lit| - 1].names)
    else LastValue(lit[..|lit| - 1], k)
  }

  /** The value of key `k` in dict `d`, if present. */
  function Get(d: seq<Entry>, k: string): Option<seq<string>>
    decreases |d|
  {
    if d == [] then None
    else if d[0].wdType == k then Some(d[0].names)
    else Get(d[1..], k)
  }

  lemma {:induction false} InsertFacts(d: seq<Entry>, e: Entry)
    requires KeysUnique(d)
    ensures |d| <= |Insert(d, e)| <= |d| + 1
    ensures forall i :: 0 <= i < |d| ==> Insert(d, e)[i].wdType == d[i].wdType
    ensures |Insert(d, e)| == |d| + 1 ==> Insert(d, e)[|d|] == e
    ensures KeysUnique(Insert(d, e))
    ensures Get(Insert(d, e), e.wdType) == Some(e.names)
    ensures forall k :: k != e.wdType ==> Get(Insert(d, e), k) == Get(d, k)
    decreases |d|
  {
    if d != [] && d[0].wdType != e.wdType {
      InsertFacts(d[1..], e);
      var r := Insert(d, e);
      assert r == [d[0]] + Insert(d[1..], e);
      forall i | 1 <= i < |r| ensures r[i].wdType != d[0].wdType {
        if i < |d| {
          assert r[i].wdType == d[1..][i - 1].wdType;
        } else {
          assert r[i] == e;
        }
      }
    }
  }

  /** A dict built from a literal has each key once, and each key's value is
      the one of its LAST item in the literal. */
  lemma {:induction false} DictFromLiteralFacts(lit: seq<Entry>)
    ensures KeysUnique(DictFromLiteral(lit))
    ensures forall k :: Get(DictFromLiteral(lit), k) == LastValue(lit, k)
    decreases |lit|
  {
    if lit != [] {
      DictFromLiteralFacts(lit[..|lit| - 1]);
      InsertFacts(DictFromLiteral(lit[..|lit| - 1]), lit[|lit| - 1]);
    }
  }

  /** `name2wdtypes[name]` read without inserting: a missing name reads as []. */
  function Lookup(index: map<string, seq<string>>, name: string): seq<string> {
    if name in index then index[name] else []
  }

  /** The body of the construction loop for one table item: the key maps to
      itself alone, then the key is appended to the list of each of its names. */
  function AddNames(index: map<string, seq<string>>, names: seq<string>, t: string): map<string, seq<string>>
    decreases |names|
  {
    if names == [] then index
    else AddNames(index[names[0] := Lookup(index, names[0]) + [t]], names[1..], t)
  }

  function AddEntry(index: map<string, seq<string>>, e: Entry): map<string, seq<string>> {
    AddNames(index[e.wdType := [e.wdType]], e.names, e.wdType)
  }

  /** The `name2wdtypes` index that the module-level loop builds from a table. */
  function BuildIndex(table: seq<Entry>): map<string, seq<string>>
    decreases |table|
  {
    if table == [] then map[] else AddEntry(BuildIndex(table[..|table| - 1]), table[|table| - 1])
  }

  /** The keys of the items that list `n` among their names, in table order,
      once per listing. */
  function Owners(table: seq<Entry>, n: string): seq<string>
    decreases |table|
  {
    if table == [] then []
    else Owners(table[..|table| - 1], n) + OwnersIn(table[|table| - 1].names, n, table[|table| - 1].wdType)
  }

  function OwnersIn(names: seq<string>, n: string, t: string): seq<string>
    decreases |names|
  {
    if names == [] then [] else (if names[0] == n then [t] else []) + OwnersIn(names[1..], n, t)
  }

  /** No name of the table is also one of its keys. */
  predicate NamesAreNotKeys(table: seq<Entry>) {
    forall i, j, k :: 0 <= i < |table| && 0 <= j < |table| && 0 <= k < |table[i].names| ==>
      table[i].names[k] != table[j].wdType
  }

  lemma AddNamesFacts(index: map<string, seq<string>>, names: seq<string>, t: string)
    ensures AddNames(index, names, t).Keys == index.Keys + set k | 0 <= k < |names| :: names[k]
    ensures forall n :: Lookup(AddNames(index, names, t), n) == Lookup(index, n) + OwnersIn(names, n, t)
  {
    AddNamesKeys(index, names, t);
    forall n ensures Lookup(AddNames(index, names, t), n) == Lookup(index, n) + OwnersIn(names, n, t) {
      AddNamesLookup(index, names, t, n);
    }
  }

  lemma {:induction false} AddNamesKeys(index: map<string, seq<string>>, names: seq<string>, t: string)
    ensures AddNames(index, names, t).Keys == index.Keys + set k | 0 <= k < |names| :: names[k]
    decreases |names|
  {
    if names != [] {
      AddNamesKeys(index[names[0] := Lookup(index, names[0]) + [t]], names[1..], t);
      ElemsCons(names);
    }
  }

  lemma {:induction false} AddNamesLookup(index: map<string, seq<string>>, names: seq<string>, t: string, n: string)
    ensures Lookup(AddNames(index, names, t), n) == Lookup(index, n) + OwnersIn(names, n, t)
    decreases |names|
  {
    if names != [] {
      var index' := index[names[0] := Lookup(index, names[0]) + [t]];
      AddNamesLookup(index', names[1..], t, n);
      assert Lookup(index', n) == Lookup(index, n) + (if names[0] == n then [t] else []);
    }
  }

  /** The elements of a non-empty sequence: its head and those of its tail. */
  lemma ElemsCons(names: seq<string>)
    requires names != []
    ensures (set k | 0 <= k < |names| :: names[k]) == {names[0]} + set k | 0 <= k < |names[1..]| :: names[1..][k]
  {
    var tl := names[1..];
    var all := set k | 0 <= k < |names| :: names[k];
    var rest := set k | 0 <= k < |tl| :: tl[k];
    forall x | x in all ensures x in {names[0]} + rest {
      var k :| 0 <= k < |names| && names[k] == x;
      if k > 0 { assert tl[k - 1] == x; }
    }
    forall x | x in rest ensures x in all {
      var k :| 0 <= k < |tl| && tl[k] == x;
      assert names[k + 1] == x;
    }
  }

  lemma NamesAreNotKeysFront(table: seq<Entry>)
    requires table != [] && NamesAreNotKeys(table)
    ensures NamesAreNotKeys(table[..|table| - 1])
  {
    var front := table[..|table| - 1];
    forall i, j, k | 0 <= i < |front| && 0 <= j < |front| && 0 <= k < |front[i].names|
      ensures front[i].names[k] != front[j].wdType
    {
      assert front[i] == table[i] && front[j] == table[j];
    }
  }

  /** The index has an entry for every key and every listed name, and for
      nothing else. */
  lemma {:induction false} BuildIndexKeys(table: seq<Entry>)
    ensures forall n :: n in BuildIndex(table) <==>
      (exists i :: 0 <= i < |table| && table[i].wdType == n) || Owners(table, n) != []
    decreases |table|
  {
    if table != [] {
      var front, e := table[..|table| - 1], table[|table| - 1];
      BuildIndexKeys(front);
      var before := BuildIndex(front);
      AddNamesFacts(before[e.wdType := [e.wdType]], e.names, e.wdType);
      forall n ensures n in BuildIndex(table) <==>
        (exists i :: 0 <= i < |table| && table[i].wdType == n) || Owners(table, n) != []
      {
        OwnersInMember(e.names, n, e.wdType);
        if exists i :: 0 <= i < |front| && front[i].wdType == n {
          var i :| 0 <= i < |front| && front[i].wdType == n;
          assert table[i].wdType == n;
        }
        if exists i :: 0 <= i < |table| && table[i].wdType == n {
          var i :| 0 <= i < |table| && table[i].wdType == n;
          if i < |front| { assert front[i].wdType == n; }
        }
      }
    }
  }

  /** When no name is also a key, the index maps every key to itself alone. */
  lemma {:induction false} BuildIndexKeyLookup(table: seq<Entry>)
    requires NamesAreNotKeys(table)
    ensures forall i :: 0 <= i < |table| ==> Lookup(BuildIndex(table), table[i].wdType) == [table[i].wdType]
    decreases |table|
  {
    if table != [] {
      var front, e := table[..|table| - 1], table[|table| - 1];
      NamesAreNotKeysFront(table);
      BuildIndexKeyLookup(front);
      var before := BuildIndex(front);
      AddNamesFacts(before[e.wdType := [e.wdType]], e.names, e.wdType);
      forall i | 0 <= i < |table| ensures Lookup(BuildIndex(table), table[i].wdType) == [table[i].wdType] {
        var n := table[i].wdType;
        assert forall k :: 0 <= k < |e.names| ==> e.names[k] != n by {
          forall k | 0 <= k < |e.names| ensures e.names[k] != n {
            assert e.names[k] == table[|table| - 1].names[k];
          }
        }
        OwnersInAbsent(e.names, n, e.wdType);
        if i < |front| && n != e.wdType {
          assert front[i] == table[i];
        }
      }
    }
  }

  /** A string that is not a key maps to the keys of the items that list
      it, in table order. */
  lemma {:induction false} BuildIndexNameLookup(table: seq<Entry>, n: string)
    requires forall i :: 0 <= i < |table| ==> table[i].wdType != n
    ensures Lookup(BuildIndex(table), n) == Owners(table, n)
    decreases |table|
  {
    if table != [] {
      var front, e := table[..|table| - 1], table[|table| - 1];
      assert forall i :: 0 <= i < |front| ==> front[i].wdType != n by {
        forall i | 0 <= i < |front| ensures front[i].wdType != n { assert front[i] == table[i]; }
      }
      BuildIndexNameLookup(front, n);
      var before := BuildIndex(front);
      AddNamesFacts(before[e.wdType := [e.wdType]], e.names, e.wdType);
    }
  }

  lemma {:induction false} OwnersInAbsent(names: seq<string>, n: string, t: string)
    requires forall k :: 0 <= k < |names| ==> names[k] != n
    ensures OwnersIn(names, n, t) == []
    decreases |names|
  {
    if names != [] { OwnersInAbsent(names[1..], n, t); }
  }

  lemma {:induction false} OwnersInMember(names: seq<string>, n: string, t: string)
    ensures OwnersIn(names, n, t) != [] <==> n in (set k | 0 <= k < |names| :: names[k])
    decreases |names|
  {
    if names != [] {
      OwnersInMember(names[1..], n, t);
      ElemsCons(names);
    }
  }

  lemma {:induction false} OwnersAppend(a: seq<Entry>, b: seq<Entry>, n: string)
    ensures Owners(a + b, n) == Owners(a, n) + Owners(b, n)
    decreases |b|
  {
    if b == [] {
      assert a + b == a;
    } else {
      assert (a + b)[..|a + b| - 1] == a + b[..|b| - 1];
      OwnersAppend(a, b[..|b| - 1], n);
    }
  }

  lemma {:induction false} OwnersNone(table: seq<Entry>, n: string)
    requires forall i :: 0 <= i < |table| ==> n !in table[i].names
    ensures Owners(table, n) == []
    decreases |table|
  {
    if table != [] {
      var last := table[|table| - 1];
      assert forall k :: 0 <= k < |last.names| ==> last.names[k] != n;
      OwnersInAbsent(last.names, n, last.wdType);
      OwnersNone(table[..|table| - 1], n);
    }
  }

  lemma {:induction false} DictFromUniqueLiteral(lit: seq<Entry>)
    requires KeysUnique(lit)
    ensures DictFromLiteral(lit) == lit
    decreases |lit|
  {
    if lit != [] {
      var front := lit[..|lit| - 1];
      DictFromUniqueLiteral(front);
      InsertNew(front, lit[|lit| - 1]);
      assert front + [lit[|lit| - 1]] == lit;
    }
  }

  lemma {:induction false} InsertNew(d: seq<Entry>, e: Entry)
    requires forall i :: 0 <= i < |d| ==> d[i].wdType != e.wdType
    ensures Insert(d, e) == d + [e]
    decreases |d|
  {
    if d != [] {
      InsertNew(d[1..], e);
      assert d == [d[0]] + d[1..];
    }
  }

  lemma {:induction false} InsertExisting(d: seq<Entry>, e: Entry, i: nat)
    requires KeysUnique(d) && i < |d| && d[i].wdType == e.wdType
    ensures Insert(d, e) == d[i := e]
    decreases |d|
  {
    if i > 0 {
      InsertExisting(d[1..], e, i - 1);
      assert d[i := e] == [d[0]] + d[1..][i - 1 := e];
    }
  }

  /** The `wdtype2names` dict the literal evaluates to: 26 keys, Q4438121 in
      the place of its first item with the value of its second. */
  const WdType2Names: seq<Entry> := [
    Entry("Q2221906", ["geographic location", "LOC"]),
    Entry("Q2424752", ["product", "PRODUCT"]),
    Entry("Q56061", ["GPE"]),
    Entry("Q5", ["human", "PER", "PERSON"]),
    Entry("Q13226383", ["facility", "FAC"]),
    Entry("Q1656682", ["event", "EVENT"]),
    Entry("Q33742", ["natural language", "LANGUAGE"]),
    Entry("Q17537576", ["creative work", "WORK_OF_ART"]),
    Entry("Q43229", ["organization", "ORG"]),
    Entry("Q16334295", ["group of humans", "NORP"]),
    Entry("Q7210356", ["political organisation", "NORP"]),
    Entry("Q191780", ["ordinal number", "ORDINAL"]),
    Entry("Q21199", ["CARDINAL", "natural number", "Numerals that do not fall under another type"]),
    Entry("Q1368", ["MONEY", "Monetary values, including unit"]),
    Entry("Q205892", ["calendar date", "DATE"]),
    Entry("Q573", ["DATE", "day"]),
    Entry("Q47018901", ["DATE", "month"]),
    Entry("Q3186692", ["DATE", "year", "calendar year"]),
    Entry("Q1248784", ["airport"]),
    Entry("Q4438121", ["sports organization", "sports team"]),
    Entry("Q515", ["city"]),
    Entry("Q7930989", ["city"]),
    Entry("Q15284", ["municipality", "city", "town", "village"]),
    Entry("Q486972", ["populated place", "settlement", "community"]),
    Entry("Q6256", ["country"]),
    Entry("Q1190554", ["occurrence"])
  ]

  /** The dict in four blocks, so that its keys can be told apart a block
      (or a pair of blocks) at a time. */
  const Block1: seq<Entry> := [
    Entry("Q2221906", ["geographic location", "LOC"]),
    Entry("Q2424752", ["product", "PRODUCT"]),
    Entry("Q56061", ["GPE"]),
    Entry("Q5", ["human", "PER", "PERSON"]),
    Entry("Q13226383", ["facility", "FAC"]),
    Entry("Q1656682", ["event", "EVENT"]),
    Entry("Q33742", ["natural language", "LANGUAGE"])
  ]

  const Block2: seq<Entry> := [
    Entry("Q17537576", ["creative work", "WORK_OF_ART"]),
    Entry("Q43229", ["organization", "ORG"]),
    Entry("Q16334295", ["group of humans", "NORP"]),
    Entry("Q7210356", ["political organisation", "NORP"]),
    Entry("Q191780", ["ordinal number", "ORDINAL"]),
    Entry("Q21199", ["CARDINAL", "natural number", "Numerals that do not fall under another type"])
  ]

  const Block3: seq<Entry> := [
    Entry("Q1368", ["MONEY", "Monetary values, including unit"]),
    Entry("Q205892", ["calendar date", "DATE"]),
    Entry("Q573", ["DATE", "day"]),
    Entry("Q47018901", ["DATE", "month"]),
    Entry("Q3186692", ["DATE", "year", "calendar year"]),
    Entry("Q1248784", ["airport"]),
    Entry("Q4438121", ["sports organization", "sports team"])
  ]

  const Block4: seq<Entry> := [
    Entry("Q515", ["city"]),
    Entry("Q7930989", ["city"]),
    Entry("Q15284", ["municipality", "city", "town", "village"]),
    Entry("Q486972", ["populated place", "settlement", "community"]),
    Entry("Q6256", ["country"]),
    Entry("Q1190554", ["occurrence"])
  ]

  predicate KeysApart(a: seq<Entry>, b: seq<Entry>) {
    forall i, j :: 0 <= i < |a| && 0 <= j < |b| ==> a[i].wdType != b[j].wdType
  }

  lemma TableInBlocks() ensures WdType2Names == Block1 + Block2 + Block3 + Block4 {}

  lemma KeysUniqueBlock1() ensures KeysUnique(Block1) {}
  lemma KeysUniqueBlock2() ensures KeysUnique(Block2) {}
  lemma KeysUniqueBlock3() ensures KeysUnique(Block3) {}
  lemma KeysUniqueBlock4() ensures KeysUnique(Block4) {}
  lemma KeysApart12() ensures KeysApart(Block1, Block2) {}
  lemma KeysApart13() ensures KeysApart(Block1, Block3) {}
  lemma KeysApart14() ensures KeysApart(Block1, Block4) {}
  lemma KeysApart23() ensures KeysApart(Block2, Block3) {}
  lemma KeysApart24() ensures KeysApart(Block2, Block4) {}
  lemma KeysApart34() ensures KeysApart(Block3, Block4) {}

  lemma {:induction false} KeysUniqueAppend(a: seq<Entry>, b: seq<Entry>)
    requires KeysUnique(a) && KeysUnique(b) && KeysApart(a, b)
    ensures KeysUnique(a + b)
  {
    var d := a + b;
    forall i, j | 0 <= i < j < |d| ensures d[i].wdType != d[j].wdType {
      if j < |a| { assert d[i] == a[i] && d[j] == a[j]; }
      else if i >= |a| { assert d[i] == b[i - |a|] && d[j] == b[j - |a|]; }
      else { assert d[i] == a[i] && d[j] == b[j - |a|]; }
    }
  }

  lemma {:induction false} KeysApartAppend(a: seq<Entry>, b: seq<Entry>, c: seq<Entry>)
    requires KeysApart(a, c) && KeysApart(b, c)
    ensures KeysApart(a + b, c)
  {
    var d := a + b;
    forall i, j | 0 <= i < |d| && 0 <= j < |c| ensures d[i].wdType != c[j].wdType {
      if i < |a| { assert d[i] == a[i]; } else { assert d[i] == b[i - |a|]; }
    }
  }

  lemma KeysUniqueUpdate(d: seq<Entry>, i: nat, e: Entry)
    requires KeysUnique(d) && i < |d| && d[i].wdType == e.wdType
    ensures KeysUnique(d[i := e])
  {
    var d' := d[i := e];
    forall a, b | 0 <= a < b < |d| ensures d'[a].wdType != d'[b].wdType {
      assert d'[a].wdType == d[a].wdType && d'[b].wdType == d[b].wdType;
    }
  }

  const FirstSportsItem := Entry("Q4438121", ["sports organization", "sports team", "athletic team"])

  lemma LiteralShape()
    ensures WdType2NamesLiteral == WdType2Names[19 := FirstSportsItem] + [WdType2Names[19]]
  {
  }

  /** The dict has each key once. */
  lemma TableKeysUnique()
    ensures KeysUnique(WdType2Names)
  {
    TableInBlocks();
    KeysUniqueBlock1(); KeysUniqueBlock2(); KeysUniqueBlock3(); KeysUniqueBlock4();
    KeysApart12(); KeysApart13(); KeysApart14(); KeysApart23(); KeysApart24(); KeysApart34();
    KeysUniqueAppend(Block1, Block2);
    KeysApartAppend(Block1, Block2, Block3);
    KeysUniqueAppend(Block1 + Block2, Block3);
    KeysApartAppend(Block1, Block2, Block4);
    KeysApartAppend(Block1 + Block2, Block3, Block4);
    KeysUniqueAppend(Block1 + Block2 + Block3, Block4);
  }

  /** A literal whose items have distinct keys except that its last item
      repeats the key of item `i` gives the dict of distinct items with the
      last value in the place of the first. */
  lemma {:induction false} RepeatedKeyAtEnd(d: seq<Entry>, i: nat, first: Entry)
    requires KeysUnique(d) && i < |d| && first.wdType == d[i].wdType
    ensures DictFromLiteral(d[i := first] + [d[i]]) == d
  {
    var lit := d[i := first] + [d[i]];
    KeysUniqueUpdate(d, i, first);
    assert lit[..|lit| - 1] == d[i := first];
    DictFromUniqueLiteral(d[i := first]);
    InsertExisting(d[i := first], d[i], i);
    assert d[i := first][i := d[i]] == d;
  }

  /** The repeated key keeps its first place and its second value, so
      'athletic team' is in no item of the dict. */
  lemma {:induction false} DuplicateKeyLaterWins()
    ensures DictFromLiteral(WdType2NamesLiteral) == WdType2Names
    ensures Get(WdType2Names, "Q4438121") == Some(["sports organization", "sports team"])
  {
    LiteralShape();
    TableKeysUnique();
    RepeatedKeyAtEnd(WdType2Names, 19, FirstSportsItem);
    DictFromLiteralFacts(WdType2NamesLiteral);
  }

  /** Every key of the dict is a Q-id and no name is. */
  lemma TableShape()
    ensures forall i :: 0 <= i < |WdType2Names| ==> |WdType2Names[i].wdType| > 0 && WdType2Names[i].wdType[0] == 'Q'
    ensures forall i, k :: 0 <= i < |WdType2Names| && 0 <= k < |WdType2Names[i].names| ==>
      |WdType2Names[i].names[k]| > 0 && WdType2Names[i].names[k][0] != 'Q'
  {
    TableInBlocks();
    ShapeBlock1(); ShapeBlock2(); ShapeBlock3(); ShapeBlock4();
    ShapeAppend(Block1, Block2);
    ShapeAppend(Block1 + Block2, Block3);
    ShapeAppend(Block1 + Block2 + Block3, Block4);
  }

  /** Keys start with `Q`, names are non-empty and do not. */
  predicate Shaped(d: seq<Entry>) {
    && (forall i :: 0 <= i < |d| ==> |d[i].wdType| > 0 && d[i].wdType[0] == 'Q')
    && (forall i, k :: 0 <= i < |d| && 0 <= k < |d[i].names| ==> |d[i].names[k]| > 0 && d[i].names[k][0] != 'Q')
  }

  lemma ShapeBlock1() ensures Shaped(Block1) {}
  lemma ShapeBlock2() ensures Shaped(Block2) {}
  lemma ShapeBlock3() ensures Shaped(Block3) {}
  lemma ShapeBlock4() ensures Shaped(Block4) {}

  lemma ShapeAppend(a: seq<Entry>, b: seq<Entry>)
    requires Shaped(a) && Shaped(b)
    ensures Shaped(a + b)
  {
    var d := a + b;
    forall i | 0 <= i < |d| ensures d[i] == if i < |a| then a[i] else b[i - |a|] {}
  }

  lemma TableNamesAreNotKeys()
    ensures NamesAreNotKeys(WdType2Names)
  {
    TableShape();
  }

  /** A string that does not start with `Q` is not a key of the dict. */
  lemma NotAKey(n: string)
    requires n == [] || n[0] != 'Q'
    ensures forall i :: 0 <= i < |WdType2Names| ==> WdType2Names[i].wdType != n
  {
    TableShape();
  }

  /** The `name2wdtypes` index at import time. */
  function Name2WdTypes(): map<string, seq<string>> {
    BuildIndex(WdType2Names)
  }

  /** Every key of the table maps to itself alone. */
  lemma {:induction false} KeysMapToThemselves()
    ensures forall i :: 0 <= i < |WdType2Names| ==>
      Lookup(Name2WdTypes(), WdType2Names[i].wdType) == [WdType2Names[i].wdType]
  {
    TableNamesAreNotKeys();
    BuildIndexKeyLookup(WdType2Names);
  }

  lemma OwnersSingle(e: Entry, n: string)
    ensures Owners([e], n) == OwnersIn(e.names, n, e.wdType)
  {
    assert [e][..0] == [];
  }

  /** Only the items in `d[lo..hi]` can list `n`. */
  lemma OwnersWindow(d: seq<Entry>, lo: nat, hi: nat, n: string)
    requires lo <= hi <= |d|
    requires forall i :: 0 <= i < |d| && !(lo <= i < hi) ==> n !in d[i].names
    ensures Owners(d, n) == Owners(d[lo..hi], n)
  {
    OwnersFrontNone(d, lo, n);
    OwnersBackNone(d, hi, n);
    OwnersThree(d, lo, hi, n);
  }

  lemma OwnersThree(d: seq<Entry>, lo: nat, hi: nat, n: string)
    requires lo <= hi <= |d|
    ensures Owners(d, n) == Owners(d[..lo], n) + Owners(d[lo..hi], n) + Owners(d[hi..], n)
  {
    assert d[..lo] + d[lo..hi] == d[..hi];
    assert d[..hi] + d[hi..] == d;
    OwnersAppend(d[..hi], d[hi..], n);
    OwnersAppend(d[..lo], d[lo..hi], n);
  }

  lemma OwnersFrontNone(d: seq<Entry>, lo: nat, n: string)
    requires lo <= |d|
    requires forall i :: 0 <= i < lo ==> n !in d[i].names
    ensures Owners(d[..lo], n) == []
  {
    var front := d[..lo];
    forall i | 0 <= i < |front| ensures n !in front[i].names {
      assert front[i] == d[i];
    }
    OwnersNone(front, n);
  }

  lemma OwnersBackNone(d: seq<Entry>, hi: nat, n: string)
    requires hi <= |d|
    requires forall i :: hi <= i < |d| ==> n !in d[i].names
    ensures Owners(d[hi..], n) == []
  {
    var back := d[hi..];
    forall i | 0 <= i < |back| ensures n !in back[i].names {
      assert back[i] == d[hi + i];
    }
    OwnersNone(back, n);
  }

  lemma CityWindow()
    ensures forall i :: 0 <= i < |WdType2Names| && !(20 <= i < 23) ==> "city" !in WdType2Names[i].names
    ensures WdType2Names[20..23] == [Entry("Q515", ["city"]), Entry("Q7930989", ["city"]),
                                     Entry("Q15284", ["municipality", "city", "town", "village"])]
  {
  }

  lemma NorpWindow()
    ensures forall i :: 0 <= i < |WdType2Names| && !(9 <= i < 11) ==> "NORP" !in WdType2Names[i].names
    ensures WdType2Names[9..11] == [Entry("Q16334295", ["group of humans", "NORP"]),
                                    Entry("Q7210356", ["political organisation", "NORP"])]
  {
  }

  lemma OrgWindow()
    ensures forall i :: 0 <= i < |WdType2Names| && !(8 <= i < 9) ==> "ORG" !in WdType2Names[i].names
    ensures WdType2Names[8..9] == [Entry("Q43229", ["organization", "ORG"])]
  {
  }

  lemma {:induction false} CityOwners(a: Entry, b: Entry, c: Entry)
    requires a == Entry("Q515", ["city"]) && b == Entry("Q7930989", ["city"])
    requires c == Entry("Q15284", ["municipality", "city", "town", "village"])
    ensures Owners([a, b, c], "city") == ["Q515", "Q7930989", "Q15284"]
  {
    assert [a, b, c] == [a, b] + [c];
    assert [a, b] == [a] + [b];
    OwnersAppend([a, b], [c], "city");
    OwnersAppend([a], [b], "city");
    OwnersSingle(a, "city");
    OwnersSingle(b, "city");
    OwnersSingle(c, "city");
  }

  /** Reading the index for a non-key name that only `d[lo..hi]` lists. */
  lemma {:induction false} AliasLookup(d: seq<Entry>, lo: nat, hi: nat, n: string, expected: seq<string>)
    requires lo <= hi <= |d|
    requires forall i :: 0 <= i < |d| ==> d[i].wdType != n
    requires forall i :: 0 <= i < |d| && !(lo <= i < hi) ==> n !in d[i].names
    requires Owners(d[lo..hi], n) == expected
    ensures Lookup(BuildIndex(d), n) == expected
  {
    BuildIndexNameLookup(d, n);
    OwnersWindow(d, lo, hi, n);
  }

  /** 'city' is listed by three keys and maps to all three, in table order. */
  lemma {:induction false} CityAlias()
    ensures Lookup(Name2WdTypes(), "city") == ["Q515", "Q7930989", "Q15284"]
  {
    NotAKey("city");
    CityWindow();
    CityOwners(Entry("Q515", ["city"]), Entry("Q7930989", ["city"]),
               Entry("Q15284", ["municipality", "city", "town", "village"]));
    AliasLookup(WdType2Names, 20, 23, "city", ["Q515", "Q7930989", "Q15284"]);
  }

  lemma {:induction false} NorpOwners(a: Entry, b: Entry)
    requires a == Entry("Q16334295", ["group of humans", "NORP"])
    requires b == Entry("Q7210356", ["political organisation", "NORP"])
    ensures Owners([a, b], "NORP") == ["Q16334295", "Q7210356"]
  {
    assert [a, b] == [a] + [b];
    OwnersAppend([a], [b], "NORP");
    OwnersSingle(a, "NORP");
    OwnersSingle(b, "NORP");
  }

  /** 'NORP' is listed by two keys and maps to both. */
  lemma {:induction false} NorpAlias()
    ensures Lookup(Name2WdTypes(), "NORP") == ["Q16334295", "Q7210356"]
  {
    NotAKey("NORP");
    NorpWindow();
    NorpOwners(Entry("Q16334295", ["group of humans", "NORP"]),
               Entry("Q7210356", ["political organisation", "NORP"]));
    AliasLookup(WdType2Names, 9, 11, "NORP", ["Q16334295", "Q7210356"]);
  }

  /** 'ORG' maps to the organisation type only. */
  lemma {:induction false} OrgAlias()
    ensures Lookup(Name2WdTypes(), "ORG") == ["Q43229"]
  {
    NotAKey("ORG");
    OrgWindow();
    OwnersSingle(Entry("Q43229", ["organization", "ORG"]), "ORG");
    AliasLookup(WdType2Names, 8, 9, "ORG", ["Q43229"]);
  }

  lemma AthleticTeamUnlisted()
    ensures forall i :: 0 <= i < |WdType2Names| ==> "athletic team" !in WdType2Names[i].names
  {
  }

  lemma LowerOrgUnlisted()
    ensures forall i :: 0 <= i < |WdType2Names| ==> "org" !in WdType2Names[i].names
  {
  }

  /** 'athletic team' was listed only by the overwritten item, and 'org'
      only in another letter case: neither is in the index. */
  lemma {:induction false} UnlistedNames()
    ensures "athletic team" !in Name2WdTypes()
    ensures "org" !in Name2WdTypes()
  {
    var d := WdType2Names;
    BuildIndexKeys(d);
    AthleticTeamUnlisted();
    LowerOrgUnlisted();
    OwnersNone(d, "athletic team");
    NotAKey("athletic team");
    OwnersNone(d, "org");
    NotAKey("org");
  }

  /** What `wd_types` can be given: a str, a set or a list of names, or any
      other value. */
  datatype TypeNames =
    | Str(name: string)
    | SetOf(elems: set<string>)
    | ListOf(items: seq<string>)
    | OtherArg

  /** The names `wd_types` loops over, in loop order: a str alone, a list as
      it is, a set in some order of its elements. */
  ghost predicate LoopOrder(arg: TypeNames, names: seq<string>) {
    match arg
    case Str(n) => names == [n]
    case ListOf(items) => names == items
    case SetOf(elems) => |names| == |elems| && forall x :: x in elems <==> x in names
    case OtherArg => names == []
  }

  /** The state of `wd_types`' loop: the ids collected so far, the names
      reported as unrecognised, the index (which a lookup of an unknown name
      extends), and whether `name[0]` raised on an empty name. */
  datatype Expansion = Expansion(ids: set<string>, unrecognized: seq<string>,
                                 index: map<string, seq<string>>, raised: bool)

  /** One name: a name starting with `Q` is taken as an id; any other is
      looked up, and an unknown one is reported and inserted with no ids. */
  function ExpandOne(st: Expansion, n: string): Expansion
    requires n != []
  {
    if n[0] == 'Q' then st.(ids := st.ids + {n})
    else if n in st.index then st.(ids := st.ids + set t | t in st.index[n])
    else st.(unrecognized := st.unrecognized + [n], index := st.index[n := []])
  }

  /** The rest of the loop from state `st`; an empty name raises and ends it. */
  function ExpandFrom(st: Expansion, names: seq<string>): Expansion
    decreases |names|
  {
    if names == [] then st
    else if names[0] == [] then st.(raised := true)
    else ExpandFrom(ExpandOne(st, names[0]), names[1..])
  }

  function ExpandNames(index: map<string, seq<string>>, names: seq<string>): Expansion {
    ExpandFrom(Expansion({}, [], index, false), names)
  }

  predicate IsQId(n: string) {
    n != [] && n[0] == 'Q'
  }

  /** The ids a list of names stands for, read off the index directly: each
      Q-name itself, and every id the index lists for any other name. */
  ghost function ExpectedIds(index: map<string, seq<string>>, names: seq<string>): set<string> {
    (set i | 0 <= i < |names| && IsQId(names[i]) :: names[i]) +
    (set i, t | 0 <= i < |names| && !IsQId(names[i]) && t in Lookup(index, names[i]) :: t)
  }

  lemma ExpectedIdsCons(index: map<string, seq<string>>, names: seq<string>)
    requires names != []
    ensures ExpectedIds(index, names) ==
      (if IsQId(names[0]) then {names[0]} else set t | t in Lookup(index, names[0])) +
      ExpectedIds(index, names[1..])
  {
    var tl := names[1..];
    assert forall i :: 0 <= i < |tl| ==> tl[i] == names[i + 1];
    var left := ExpectedIds(index, names);
    var right := (if IsQId(names[0]) then {names[0]} else set t | t in Lookup(index, names[0])) +
      ExpectedIds(index, tl);
    forall x | x in left ensures x in right {
      if exists i :: 0 <= i < |names| && IsQId(names[i]) && names[i] == x {
        var i :| 0 <= i < |names| && IsQId(names[i]) && names[i] == x;
        if i > 0 { assert tl[i - 1] == x; }
      } else {
        var i, t :| 0 <= i < |names| && !IsQId(names[i]) && t in Lookup(index, names[i]) && t == x;
        if i > 0 { assert tl[i - 1] == names[i]; }
      }
    }
    forall x | x in right ensures x in left {
      if x in ExpectedIds(index, tl) {
        if exists i :: 0 <= i < |tl| && IsQId(tl[i]) && tl[i] == x {
          var i :| 0 <= i < |tl| && IsQId(tl[i]) && tl[i] == x;
          assert names[i + 1] == x;
        } else {
          var i, t :| 0 <= i < |tl| && !IsQId(tl[i]) && t in Lookup(index, tl[i]) && t == x;
          assert names[i + 1] == tl[i];
        }
      }
    }
  }

  /** The loop raises exactly when some name is empty. */
  lemma {:induction false} ExpandFromRaised(st: Expansion, names: seq<string>)
    requires !st.raised
    ensures ExpandFrom(st, names).raised <==> exists i :: 0 <= i < |names| && names[i] == []
    decreases |names|
  {
    if names != [] && names[0] != [] {
      ExpandFromRaised(ExpandOne(st, names[0]), names[1..]);
      if exists i :: 0 <= i < |names| && names[i] == [] {
        var i :| 0 <= i < |names| && names[i] == [];
        assert names[1..][i - 1] == [];
      }
      if exists i :: 0 <= i < |names[1..]| && names[1..][i] == [] {
        var i :| 0 <= i < |names[1..]| && names[1..][i] == [];
        assert names[i + 1] == [];
      }
    }
  }

  /** Looking a name up never changes what any name reads as: the loop only
      inserts empty entries. */
  lemma {:induction false} ExpandFromIndex(st: Expansion, names: seq<string>)
    ensures forall n :: Lookup(ExpandFrom(st, names).index, n) == Lookup(st.index, n)
    ensures st.index.Keys <= ExpandFrom(st, names).index.Keys
    decreases |names|
  {
    if names != [] && names[0] != [] {
      var st' := ExpandOne(st, names[0]);
      ExpandFromIndex(st', names[1..]);
      assert forall n :: Lookup(st'.index, n) == Lookup(st.index, n);
    }
  }

  /** With no empty name, the loop collects exactly the ids the names stand
      for, and leaves every non-Q name in the index. */
  lemma {:induction false} ExpandFromIds(st: Expansion, names: seq<string>)
    requires forall i :: 0 <= i < |names| ==> names[i] != []
    ensures ExpandFrom(st, names).ids == st.ids + ExpectedIds(st.index, names)
    ensures forall i :: 0 <= i < |names| && !IsQId(names[i]) ==> names[i] in ExpandFrom(st, names).index
    decreases |names|
  {
    if names != [] {
      var st' := ExpandOne(st, names[0]);
      assert forall i :: 0 <= i < |names[1..]| ==> names[1..][i] == names[i + 1];
      ExpandFromIds(st', names[1..]);
      ExpandFromIndex(st', names[1..]);
      ExpectedIdsCons(st.index, names);
      ExpectedIdsSameLookups(st'.index, st.index, names[1..]);
      forall i | 0 <= i < |names| && !IsQId(names[i]) ensures names[i] in ExpandFrom(st, names).index {
        if i > 0 { assert names[1..][i - 1] == names[i]; }
      }
    }
  }

  lemma ExpectedIdsSameLookups(a: map<string, seq<string>>, b: map<string, seq<string>>, names: seq<string>)
    requires forall n :: Lookup(a, n) == Lookup(b, n)
    ensures ExpectedIds(a, names) == ExpectedIds(b, names)
  {
  }

  /** A loop over names that the index already has reports nothing. */
  lemma {:induction false} KnownNamesNotReported(st: Expansion, names: seq<string>)
    requires forall i :: 0 <= i < |names| && !IsQId(names[i]) ==> names[i] in st.index
    ensures ExpandFrom(st, names).unrecognized == st.unrecognized
    ensures ExpandFrom(st, names).index == st.index
    decreases |names|
  {
    if names != [] && names[0] != [] {
      KnownNamesNotReported(ExpandOne(st, names[0]), names[1..]);
    }
  }

  /** `wd_types` on names with no empty one returns exactly the ids they
      stand for, never raises, and an unknown name contributes nothing. */
  lemma {:induction false} ExpandNamesIds(index: map<string, seq<string>>, names: seq<string>)
    ensures ExpandNames(index, names).raised <==> exists i :: 0 <= i < |names| && names[i] == []
    ensures (forall i :: 0 <= i < |names| ==> names[i] != []) ==>
      ExpandNames(index, names).ids == ExpectedIds(index, names)
  {
    ExpandFromRaised(Expansion({}, [], index, false), names);
    if forall i :: 0 <= i < |names| ==> names[i] != [] {
      ExpandFromIds(Expansion({}, [], index, false), names);
    }
  }

  /** Because the first call inserted every unknown name, a second call with
      the same names reports nothing and returns the same ids. */
  lemma {:induction false} SecondCallSilent(index: map<string, seq<string>>, names: seq<string>)
    requires forall i :: 0 <= i < |names| ==> names[i] != []
    ensures ExpandNames(ExpandNames(index, names).index, names).unrecognized == []
    ensures ExpandNames(ExpandNames(index, names).index, names).ids == ExpandNames(index, names).ids
  {
    var first := ExpandNames(index, names);
    ExpandFromIds(Expansion({}, [], index, false), names);
    ExpandFromIndex(Expansion({}, [], index, false), names);
    KnownNamesNotReported(Expansion({}, [], first.index, false), names);
    ExpandFromIds(Expansion({}, [], first.index, false), names);
    ExpectedIdsSameLookups(first.index, index, names);
  }

  /** Iterating over a set: each element once, in some order. */
  method Enumerate(elems: set<string>) returns (list: seq<string>)
    ensures |list| == |elems|
    ensures forall x :: x in elems <==> x in list
  {
    list := [];
    var rest := elems;
    while rest != {}
      invariant rest <= elems
      invariant |list| + |rest| == |elems|
      invariant forall x :: x in elems <==> x in list || x in rest
      invariant forall x :: x in rest ==> x !in list
    {
      var x :| x in rest;
      list := list + [x];
      rest := rest - {x};
    }
  }

  /** `ids.update(ts)`: the ids collected plus every id in `ts`. */
  method AddIds(ids: set<string>, ts: seq<string>) returns (r: set<string>)
    ensures r == ids + set t | t in ts
  {
    r := ids;
    var j := 0;
    while j < |ts|
      invariant 0 <= j <= |ts|
      invariant r == ids + set t | t in ts[..j]
    {
      assert ts[..j + 1] == ts[..j] + [ts[j]];
      r := r + {ts[j]};
      j := j + 1;
    }
    assert ts[..|ts|] == ts;
  }

  /** The registry object: the `name2wdtypes` defaultdict, which `wd_types`
      reads and (for unknown names) extends. */
  class TypeRegistry {
    var index: map<string, seq<string>>

    /** The module-level loop over `wdtype2names`. */
    constructor (table: seq<Entry>)
      ensures index == BuildIndex(table)
    {
      var idx: map<string, seq<string>> := map[];
      var i := 0;
      while i < |table|
        invariant 0 <= i <= |table|
        invariant idx == BuildIndex(table[..i])
      {
        var e := table[i];
        ghost var target := AddEntry(idx, e);
        idx := idx[e.wdType := [e.wdType]];
        var j := 0;
        while j < |e.names|
          invariant 0 <= j <= |e.names|
          invariant AddNames(idx, e.names[j..], e.wdType) == target
        {
          var n := e.names[j];
          assert e.names[j..] == [n] + e.names[j + 1..];
          idx := idx[n := Lookup(idx, n) + [e.wdType]];
          j := j + 1;
        }
        assert table[..i + 1][..i] == table[..i];
        i := i + 1;
      }
      assert table[..|table|] == table;
      index := idx;
    }

    /** `wd_types`: expands names into Wikidata ids. Returns the ids (or
        IndexError for an empty name), the names reported as unrecognised,
        and whether the argument was rejected as not a str, set or list. */
    method WdTypes(arg: TypeNames) returns (r: Result<set<string>>, reported: seq<string>, badArg: bool,
                                            ghost names: seq<string>)
      modifies this
      ensures LoopOrder(arg, names)
      ensures badArg <==> arg.OtherArg?
      ensures badArg ==> r == Ok({}) && reported == [] && index == old(index)
      ensures !badArg ==>
        var run := ExpandNames(old(index), names);
        && index == run.index
        && reported == run.unrecognized
        && r == (if run.raised then Err(IndexError) else Ok(run.ids))
    {
      if arg.OtherArg? {
        return Ok({}), [], true, [];
      }
      badArg := false;
      var list: seq<string>;
      match arg {
        case Str(n) => list := [n];
        case ListOf(items) => list := items;
        case SetOf(elems) => list := Enumerate(elems);
      }
      names := list;
      var st := Expansion({}, [], index, false);
      var k := 0;
      while k < |list|
        invariant 0 <= k <= |list|
        invariant !st.raised
        invariant ExpandFrom(st, list[k..]) == ExpandNames(old(index), list)
      {
        var n := list[k];
        assert list[k..] == [n] + list[k + 1..];
        if n == [] {
          index := st.index;
          return Err(IndexError), st.unrecognized, false, names;
        }
        if n[0] == 'Q' {
          st := st.(ids := st.ids + {n});
        } else {
          if n !in st.index {
            st := st.(unrecognized := st.unrecognized + [n], index := st.index[n := []]);
          } else {
            var ids := AddIds(st.ids, st.index[n]);
            st := st.(ids := ids);
          }
        }
        k := k + 1;
      }
      index := st.index;
      r := Ok(st.ids);
      reported := st.unrecognized;
    }
  }

  /** End to end on the real table: an alias expands to all its keys, a
      Q-id passes through untouched, an unlisted or wrongly-cased name is
      reported and contributes nothing. */
  lemma {:induction false} WdTypesOnTable()
    ensures ExpandNames(Name2WdTypes(), ["city", "Q5"]).ids == {"Q515", "Q7930989", "Q15284", "Q5"}
    ensures ExpandNames(Name2WdTypes(), ["city", "Q5"]).unrecognized == []
    ensures ExpandNames(Name2WdTypes(), ["org", "athletic team"]).ids == {}
    ensures ExpandNames(Name2WdTypes(), ["org", "athletic team"]).unrecognized == ["org", "athletic team"]
  {
    CityAlias();
    UnlistedNames();
    ExpandCityQ5(Name2WdTypes());
    ExpandUnknownPair(Name2WdTypes(), "org", "athletic team");
  }

  lemma {:induction false} ExpandCityQ5(idx: map<string, seq<string>>)
    requires Lookup(idx, "city") == ["Q515", "Q7930989", "Q15284"]
    ensures ExpandNames(idx, ["city", "Q5"]).ids == {"Q515", "Q7930989", "Q15284", "Q5"}
    ensures ExpandNames(idx, ["city", "Q5"]).unrecognized == []
  {
    var city := set t | t in ["Q515", "Q7930989", "Q15284"];
    assert city == {"Q515", "Q7930989", "Q15284"};
  }

  lemma {:induction false} ExpandUnknownPair(idx: map<string, seq<string>>, a: string, b: string)
    requires a != [] && a[0] != 'Q' && a !in idx
    requires b != [] && b[0] != 'Q' && b !in idx && a != b
    ensures ExpandNames(idx, [a, b]).ids == {}
    ensures ExpandNames(idx, [a, b]).unrecognized == [a, b]
  {
    var st1 := ExpandOne(Expansion({}, [], idx, false), a);
    assert st1 == Expansion({}, [a], idx[a := []], false);
    assert [a, b][1..] == [b];
    assert ExpandNames(idx, [a, b]) == ExpandFrom(st1, [b]);
    assert [b][1..] == [];
    assert ExpandFrom(st1, [b]) == ExpandOne(st1, b);
  }
}
