/** The tag index of the tags page: every post's `tags` array is tallied into
    a record from tag name to `{ count, posts }`, whose entries are then
    sorted by count, largest first. */
module Tags {
  import opened Json
  import opened Sorting
  import opened JsText

  /** A post document as the page reads it: its id and its `tags` field. */
  datatype TagDoc = TagDoc(id: string, tags: JsValue)

  /** One tally entry: the counter and the ids pushed so far. */
  datatype Entry = Entry(count: int, posts: seq<string>)

  /** One row of the page. */
  datatype Tag = Tag(name: string, count: int, posts: seq<string>)

  /** One element of some post's `tags` array, with the id of that post. */
  datatype Occurrence = Occurrence(tag: string, post: string)

  function CountOf(t: Tag): int { t.count }

  /** The occurrences an array of tags contributes; an element is used as a
      property key, so it stands for its string form. */
  function ElemOccurrences(elems: seq<JsValue>, id: string): seq<Occurrence> {
    seq(|elems|, k requires 0 <= k < |elems| => Occurrence(ToString(elems[k]), id))
  }

  /** `if (data.tags && Array.isArray(data.tags))`: only an array counts. */
  function DocOccurrences(d: TagDoc): seq<Occurrence> {
    if d.tags.JArr? then ElemOccurrences(d.tags.elems, d.id) else []
  }

  /** All occurrences, document by document. */
  function Occurrences(docs: seq<TagDoc>): seq<Occurrence> {
    if docs == [] then []
    else Occurrences(docs[..|docs| - 1]) + DocOccurrences(docs[|docs| - 1])
  }

  /** The ids pushed for `name`, in order. */
  function PostsIn(occ: seq<Occurrence>, name: string): seq<string> {
    if occ == [] then []
    else
      var o := occ[|occ| - 1];
      PostsIn(occ[..|occ| - 1], name) + (if o.tag == name then [o.post] else [])
  }

  /** The tag names in the order they were first seen: the order in which
      the record's properties were created. */
  function NamesIn(occ: seq<Occurrence>): seq<string> {
    if occ == [] then []
    else
      var names := NamesIn(occ[..|occ| - 1]);
      var t := occ[|occ| - 1].tag;
      if t in names then names else names + [t]
  }

  function TagOf(occ: seq<Occurrence>, name: string): Tag {
    Tag(name, |PostsIn(occ, name)|, PostsIn(occ, name))
  }

  /** `Object.entries(tagCounts).map(...)` for the given key order. */
  function TagsOver(occ: seq<Occurrence>, names: seq<string>): seq<Tag> {
    seq(|names|, k requires 0 <= k < |names| => TagOf(occ, names[k]))
  }

  /** The largest array index, 2^32 - 2. */
  const MaxArrayIndex := 4294967294

  /** An array index in the sense of section 6.1.7 of ECMA-262: the
      canonical decimal text of an integer from 0 to 2^32 - 2. */
  predicate IsArrayIndex(name: string) {
    name != [] && AllDigits(name) && DigitsValue(name) <= MaxArrayIndex && NatToString(DigitsValue(name)) == name
  }

  /** The place of a key in an ordinary object's own-key order (section
      10.1.11.1 of ECMA-262, OrdinaryOwnPropertyKeys), as a rank listed
      largest first: array indices come first, in ascending numeric order,
      and every other key after them, in creation order. */
  function KeyRank(name: string): (r: int)
    ensures r >= 0 && (r > 0 <==> IsArrayIndex(name))
  {
    if IsArrayIndex(name) then MaxArrayIndex + 1 - DigitsValue(name) else 0
  }

  function RankOf(t: Tag): int { KeyRank(t.name) }

  /** The entries in the order their keys were created. */
  function Created(docs: seq<TagDoc>): seq<Tag> {
    var occ := Occurrences(docs);
    TagsOver(occ, NamesIn(occ))
  }

  /** `Object.entries(tagCounts)`: the entries in own-key order, a stable
      reordering of the creation order by rank. */
  function Tally(docs: seq<TagDoc>): seq<Tag> {
    SortDesc(Created(docs), RankOf)
  }

  /** The rows the page shows: the entries sorted by count, largest first. */
  function TagIndex(docs: seq<TagDoc>): (r: seq<Tag>)
    ensures |r| == |Tally(docs)|
    ensures forall i, j :: 0 <= i < j < |r| ==> r[i].count >= r[j].count
  {
    SortDesc(Tally(docs), CountOf)
  }

  /** The tally invariant of the counting loops. */
  ghost predicate Tallied(counts: map<string, Entry>, order: seq<string>, occ: seq<Occurrence>) {
    && order == NamesIn(occ)
    && (forall n :: n in counts <==> n in order)
    && (forall n :: n in counts ==> counts[n] == Entry(|PostsIn(occ, n)|, PostsIn(occ, n)))
  }

  /** The body of `loadTags` after the fetch: the nested counting loops
      (`order` keeps the record's key order), the entry list, and the
      in-place sort by count. */
  method LoadTags(docs: seq<TagDoc>) returns (tags: seq<Tag>)
    ensures tags == TagIndex(docs)
  {
    var counts: map<string, Entry> := map[];
    var order: seq<string> := [];
    var i := 0;
    while i < |docs|
      invariant 0 <= i <= |docs|
      invariant Tallied(counts, order, Occurrences(docs[..i]))
    {
      assert docs[..i + 1][..i] == docs[..i];
      counts, order := CountDoc(counts, order, docs[i], Occurrences(docs[..i]));
      i := i + 1;
    }
    assert docs[..|docs|] == docs;
    var a := EntryArray(counts, order, Occurrences(docs));
    SortInPlace(a, CountOf);
    tags := a[..];
  }

  /** The inner loop over one post's tags, when they form an array. */
  method CountDoc(counts: map<string, Entry>, order: seq<string>, d: TagDoc, ghost done: seq<Occurrence>)
      returns (counts': map<string, Entry>, order': seq<string>)
    requires Tallied(counts, order, done)
    ensures Tallied(counts', order', done + DocOccurrences(d))
  {
    counts', order' := counts, order;
    if d.tags.JArr? {
      var elems := d.tags.elems;
      assert elems[..0] == [];
      assert done + ElemOccurrences(elems[..0], d.id) == done;
      var j := 0;
      while j < |elems|
        invariant 0 <= j <= |elems|
        invariant Tallied(counts', order', done + ElemOccurrences(elems[..j], d.id))
      {
        ghost var before := done + ElemOccurrences(elems[..j], d.id);
        var tag := ToString(elems[j]);
        assert elems[..j + 1][..j] == elems[..j];
        assert done + ElemOccurrences(elems[..j + 1], d.id) == before + [Occurrence(tag, d.id)];
        counts', order' := CountOne(counts', order', tag, d.id, before);
        j := j + 1;
      }
      assert elems[..|elems|] == elems;
    } else {
      assert done + DocOccurrences(d) == done;
    }
  }

  /** `Object.entries(tagCounts).map(...)`: one row per key, the rows first
      laid out in creation order (`order`) and then placed in own-key order,
      as the runtime lists them. */
  method EntryArray(counts: map<string, Entry>, order: seq<string>, ghost occ: seq<Occurrence>)
      returns (a: array<Tag>)
    requires Tallied(counts, order, occ)
    ensures fresh(a)
    ensures a[..] == SortDesc(TagsOver(occ, NamesIn(occ)), RankOf)
  {
    a := new Tag[|order|];
    var k := 0;
    while k < |order|
      invariant 0 <= k <= |order|
      invariant a[..k] == TagsOver(occ, order[..k])
    {
      assert order[..k + 1][..k] == order[..k];
      a[k] := Tag(order[k], counts[order[k]].count, counts[order[k]].posts);
      assert a[..k + 1] == a[..k] + [a[k]];
      k := k + 1;
    }
    assert a[..] == a[..k];
    assert order[..|order|] == order;
    SortInPlace(a, RankOf);
  }

  /** One pass of the inner loop: create the entry if it is missing, then
      `count++` and `posts.push(doc.id)`. */
  method CountOne(counts: map<string, Entry>, order: seq<string>, tag: string, id: string,
                  ghost occ: seq<Occurrence>)
      returns (counts': map<string, Entry>, order': seq<string>)
    requires Tallied(counts, order, occ)
    ensures Tallied(counts', order', occ + [Occurrence(tag, id)])
  {
    counts', order' := counts, order;
    if tag !in counts' {
      counts' := counts'[tag := Entry(0, [])];
      order' := order' + [tag];
      assert PostsIn(occ, tag) == [] by {
        PostsInNamed(occ, tag);
      }
    }
    counts' := counts'[tag := Entry(counts'[tag].count + 1, counts'[tag].posts + [id])];
    var occ' := occ + [Occurrence(tag, id)];
    assert occ'[..|occ|] == occ;
  }

  /** A name with posts has been seen. */
  lemma {:induction false} PostsInNamed(occ: seq<Occurrence>, name: string)
    requires name !in NamesIn(occ)
    ensures PostsIn(occ, name) == []
  {
    if occ != [] {
      PostsInNamed(occ[..|occ| - 1], name);
    }
  }

  lemma {:induction false} NamesInMember(occ: seq<Occurrence>, name: string)
    ensures name in NamesIn(occ) <==> exists k :: 0 <= k < |occ| && occ[k].tag == name
  {
    if occ != [] {
      var init := occ[..|occ| - 1];
      NamesInMember(init, name);
      if exists k :: 0 <= k < |occ| && occ[k].tag == name {
        var k :| 0 <= k < |occ| && occ[k].tag == name;
        if k < |init| {
          assert init[k] == occ[k];
        }
      }
      if exists k :: 0 <= k < |init| && init[k].tag == name {
        var k :| 0 <= k < |init| && init[k].tag == name;
        assert occ[k] == init[k];
      }
    }
  }

  predicate Distinct<T(==)>(s: seq<T>) {
    forall i, j :: 0 <= i < j < |s| ==> s[i] != s[j]
  }

  lemma {:induction false} NamesInDistinct(occ: seq<Occurrence>)
    ensures Distinct(NamesIn(occ))
  {
    if occ != [] {
      NamesInDistinct(occ[..|occ| - 1]);
    }
  }

  lemma OccurrencesLast(docs: seq<TagDoc>)
    requires docs != []
    ensures Occurrences(docs) == Occurrences(docs[..|docs| - 1]) + DocOccurrences(docs[|docs| - 1])
  {
  }

  lemma ConcatAssoc<T>(x: seq<T>, y: seq<T>, z: seq<T>)
    ensures (x + y) + z == x + (y + z)
  {
  }

  lemma {:induction false} OccurrencesAppend(a: seq<TagDoc>, b: seq<TagDoc>)
    ensures Occurrences(a + b) == Occurrences(a) + Occurrences(b)
    decreases |b|
  {
    if b == [] {
      assert a + b == a;
    } else {
      var init, last := b[..|b| - 1], b[|b| - 1];
      var ab := a + b;
      assert ab[..|ab| - 1] == a + init;
      assert ab[|ab| - 1] == last;
      OccurrencesLast(ab);
      OccurrencesLast(b);
      OccurrencesAppend(a, init);
      ConcatAssoc(Occurrences(a), Occurrences(init), DocOccurrences(last));
    }
  }

  lemma {:induction false} PostsInAppend(x: seq<Occurrence>, y: seq<Occurrence>, name: string)
    ensures PostsIn(x + y, name) == PostsIn(x, name) + PostsIn(y, name)
    decreases |y|
  {
    if y == [] {
      assert x + y == x;
    } else {
      var init := y[..|y| - 1];
      assert (x + y)[..|x + y| - 1] == x + init;
      PostsInAppend(x, init, name);
    }
  }

  /** Every row's count is the length of its posts list, and that list holds
      one id per occurrence of the tag, in document order. */
  lemma CountMatchesPosts(docs: seq<TagDoc>, k: nat)
    requires k < |TagIndex(docs)|
    ensures TagIndex(docs)[k].count == |TagIndex(docs)[k].posts|
    ensures TagIndex(docs)[k].posts == PostsIn(Occurrences(docs), TagIndex(docs)[k].name)
  {
    var occ := Occurrences(docs);
    var created := Created(docs);
    var t := TagIndex(docs)[k];
    SortDescPerm(Tally(docs), CountOf);
    SortDescPerm(created, RankOf);
    assert t in multiset(Tally(docs));
    assert t in multiset(created);
    var m :| 0 <= m < |created| && created[m] == t;
    assert t == TagOf(occ, NamesIn(occ)[m]);
  }

  /** Earlier documents' ids come first in every posts list. */
  lemma PostsFollowDocumentOrder(a: seq<TagDoc>, b: seq<TagDoc>, name: string)
    ensures PostsIn(Occurrences(a + b), name) == PostsIn(Occurrences(a), name) + PostsIn(Occurrences(b), name)
  {
    OccurrencesAppend(a, b);
    PostsInAppend(Occurrences(a), Occurrences(b), name);
  }

  /** A post whose `tags` is missing or not an array changes nothing. */
  lemma NonArrayIgnored(a: seq<TagDoc>, d: TagDoc, b: seq<TagDoc>)
    requires !d.tags.JArr?
    ensures TagIndex(a + [d] + b) == TagIndex(a + b)
  {
    OccurrencesAppend(a + [d], b);
    OccurrencesAppend(a, [d]);
    OccurrencesAppend(a, b);
    assert [d][..0] == [];
    assert Occurrences([d]) == [];
    assert Occurrences(a + [d]) == Occurrences(a);
  }

  /** A post listing the same tag twice counts twice and is listed twice. */
  lemma TagListedTwice()
    ensures TagIndex([TagDoc("p", JArr([JStr("swim"), JStr("swim")]))]) == [Tag("swim", 2, ["p", "p"])]
  {
    var elems := [JStr("swim"), JStr("swim")];
    var docs := [TagDoc("p", JArr(elems))];
    var one := [Occurrence("swim", "p")];
    var occ := one + one;
    assert elems[..1] == [JStr("swim")];
    assert ElemOccurrences(elems, "p") == occ;
    assert docs[..0] == [];
    assert Occurrences(docs) == occ;
    assert occ[..1] == one;
    assert NamesIn(one) == ["swim"];
    assert NamesIn(occ) == ["swim"];
    assert PostsIn(one, "swim") == ["p"];
    assert PostsIn(occ, "swim") == ["p", "p"];
    var t := Tag("swim", 2, ["p", "p"]);
    assert Tally(docs) == [t];
    assert [t][..0] == [];
    assert SortDesc([t], CountOf) == [t];
  }

  lemma MultisetTwice<T>(s: seq<T>, i: nat, j: nat)
    requires i < j < |s| && s[i] == s[j]
    ensures multiset(s)[s[i]] >= 2
  {
    assert s == s[..j] + [s[j]] + s[j + 1..];
    assert s[..j][i] == s[i];
    assert s[i] in multiset(s[..j]);
  }

  lemma {:induction false} MultisetOnce<T>(s: seq<T>, x: T)
    requires Distinct(s)
    ensures multiset(s)[x] <= 1
  {
    if s != [] {
      var init := s[..|s| - 1];
      assert s == init + [s[|s| - 1]];
      MultisetOnce(init, x);
      if x == s[|s| - 1] {
        assert x !in init;
      }
    }
  }

  predicate DistinctNames(s: seq<Tag>) {
    forall i, j :: 0 <= i < j < |s| ==> s[i].name != s[j].name
  }

  /** A rearrangement of rows with distinct names has distinct names. */
  lemma PermutationKeepsDistinctNames(s: seq<Tag>, t: seq<Tag>)
    requires multiset(s) == multiset(t) && DistinctNames(s)
    ensures DistinctNames(t)
  {
    assert Distinct(s);
    forall i, j | 0 <= i < j < |t|
      ensures t[i].name != t[j].name
    {
      if t[i].name == t[j].name {
        assert t[i] in multiset(s) && t[j] in multiset(s);
        var p :| 0 <= p < |s| && s[p] == t[i];
        var q :| 0 <= q < |s| && s[q] == t[j];
        assert p == q;
        MultisetTwice(t, i, j);
        MultisetOnce(s, t[i]);
        assert false;
      }
    }
  }

  lemma TallyNamesOnce(docs: seq<TagDoc>)
    ensures DistinctNames(Tally(docs))
  {
    NamesInDistinct(Occurrences(docs));
    assert DistinctNames(Created(docs));
    SortDescPerm(Created(docs), RankOf);
    PermutationKeepsDistinctNames(Created(docs), Tally(docs));
  }

  /** Each tag name occurs in exactly one row. */
  lemma NamesOnce(docs: seq<TagDoc>)
    ensures DistinctNames(TagIndex(docs))
  {
    TallyNamesOnce(docs);
    SortDescPerm(Tally(docs), CountOf);
    PermutationKeepsDistinctNames(Tally(docs), TagIndex(docs));
  }

  /** Every row is named after a tag some post lists. */
  lemma RowNameOccurs(docs: seq<TagDoc>, k: nat)
    requires k < |TagIndex(docs)|
    ensures exists m :: 0 <= m < |Occurrences(docs)| && Occurrences(docs)[m].tag == TagIndex(docs)[k].name
  {
    var tally := Created(docs);
    var row := TagIndex(docs)[k];
    SortDescPerm(Tally(docs), CountOf);
    SortDescPerm(tally, RankOf);
    assert row in multiset(tally);
    var p :| 0 <= p < |tally| && tally[p] == row;
    assert NamesIn(Occurrences(docs))[p] == row.name;
    NamesInMember(Occurrences(docs), row.name);
  }

  /** Every tag some post lists has a row. */
  lemma OccurringNameHasRow(docs: seq<TagDoc>, m: nat)
    requires m < |Occurrences(docs)|
    ensures exists k :: 0 <= k < |TagIndex(docs)| && TagIndex(docs)[k].name == Occurrences(docs)[m].tag
  {
    var name := Occurrences(docs)[m].tag;
    var names := NamesIn(Occurrences(docs));
    var tally := Created(docs);
    NamesInMember(Occurrences(docs), name);
    var p :| 0 <= p < |names| && names[p] == name;
    SortDescPerm(tally, RankOf);
    SortDescPerm(Tally(docs), CountOf);
    assert tally[p] in multiset(Tally(docs));
    assert tally[p] in multiset(TagIndex(docs));
  }

  /** Among the entries, an array-index name comes before every other name
      and after every smaller array index. */
  lemma IndexKeysFirst(docs: seq<TagDoc>, i: nat, j: nat)
    requires i < j < |Tally(docs)| && IsArrayIndex(Tally(docs)[j].name)
    ensures IsArrayIndex(Tally(docs)[i].name)
    ensures DigitsValue(Tally(docs)[i].name) < DigitsValue(Tally(docs)[j].name)
  {
    var a, b := Tally(docs)[i].name, Tally(docs)[j].name;
    assert RankOf(Tally(docs)[i]) >= RankOf(Tally(docs)[j]);
    TallyNamesOnce(docs);
    assert a == NatToString(DigitsValue(a)) && b == NatToString(DigitsValue(b));
  }

  /** The other names keep the order in which they were first seen. */
  lemma OtherKeysInCreationOrder(docs: seq<TagDoc>)
    ensures WithKey(Tally(docs), RankOf, 0) == WithKey(Created(docs), RankOf, 0)
  {
    SortDescStable(Created(docs), RankOf, 0);
  }

  lemma OccurrencesTwoTags()
    ensures Occurrences([TagDoc("p", JArr([JStr("b"), JStr("7")]))]) == [Occurrence("b", "p"), Occurrence("7", "p")]
  {
    var elems := [JStr("b"), JStr("7")];
    var docs := [TagDoc("p", JArr(elems))];
    var occ := [Occurrence("b", "p"), Occurrence("7", "p")];
    assert ToString(elems[0]) == "b" && ToString(elems[1]) == "7";
    assert ElemOccurrences(elems, "p") == occ;
    assert DocOccurrences(docs[0]) == occ;
    assert docs[..0] == [];
    assert Occurrences(docs) == [] + occ;
    assert [] + occ == occ;
  }

  /** The entries of one post tagged "b" then "7", in creation order. */
  lemma CreatedTwoTags()
    ensures Created([TagDoc("p", JArr([JStr("b"), JStr("7")]))]) == [Tag("b", 1, ["p"]), Tag("7", 1, ["p"])]
  {
    var ob, o7 := Occurrence("b", "p"), Occurrence("7", "p");
    var occ := [ob, o7];
    OccurrencesTwoTags();
    assert occ[..1] == [ob];
    assert [ob][..0] == [];
    assert NamesIn([ob]) == ["b"];
    assert NamesIn(occ) == ["b", "7"];
    assert PostsIn([ob], "7") == [];
    assert PostsIn([ob], "b") == PostsIn([], "b") + ["p"];
    assert PostsIn(occ, "7") == PostsIn([ob], "7") + ["p"];
    assert PostsIn(occ, "b") == PostsIn([ob], "b");
    assert TagOf(occ, "b") == Tag("b", 1, ["p"]) && TagOf(occ, "7") == Tag("7", 1, ["p"]);
    assert TagsOver(occ, ["b", "7"]) == [TagOf(occ, "b"), TagOf(occ, "7")];
  }

  /** "7" is an array index and "b" is not. */
  lemma SevenIsIndex()
    ensures KeyRank("7") > 0 && KeyRank("b") == 0
  {
    assert "7"[..0] == [];
    assert DigitsValue("7") == 7 && NatToString(7) == "7";
    assert !IsDigit("b"[0]);
  }

  /** An integer-like tag is listed before a tag seen earlier: with equal
      counts the page shows "7" before "b". */
  lemma IndexKeyListedFirst()
    ensures TagIndex([TagDoc("p", JArr([JStr("b"), JStr("7")]))]) == [Tag("7", 1, ["p"]), Tag("b", 1, ["p"])]
  {
    var docs := [TagDoc("p", JArr([JStr("b"), JStr("7")]))];
    var tb, t7 := Tag("b", 1, ["p"]), Tag("7", 1, ["p"]);
    CreatedTwoTags();
    SevenIsIndex();
    assert [tb, t7][..1] == [tb];
    assert SortDesc([tb], RankOf) == [tb];
    assert Insert(t7, [tb], RankOf) == [t7, tb];
    assert Tally(docs) == [t7, tb];
    assert [t7, tb][..1] == [t7];
    assert SortDesc([t7], CountOf) == [t7];
    assert [t7][1..] == [];
    assert Insert(tb, [t7], CountOf) == [t7] + Insert(tb, [], CountOf);
  }

  /** Rows with equal counts keep the own-key order of the entries. */
  lemma TiesKeepKeyOrder(docs: seq<TagDoc>, c: int)
    ensures WithKey(TagIndex(docs), CountOf, c) == WithKey(Tally(docs), CountOf, c)
  {
    SortDescStable(Tally(docs), CountOf, c);
  }

  lemma {:induction false} SumShift(occ: seq<Occurrence>, o: Occurrence, names: seq<string>)
    requires Distinct(names)
    ensures SumKeys(TagsOver(occ + [o], names), CountOf)
            == SumKeys(TagsOver(occ, names), CountOf) + (if o.tag in names then 1 else 0)
  {
    if names != [] {
      var init := names[..|names| - 1];
      var n := names[|names| - 1];
      SumShift(occ, o, init);
      assert TagsOver(occ + [o], names)[..|init|] == TagsOver(occ + [o], init);
      assert TagsOver(occ, names)[..|init|] == TagsOver(occ, init);
      assert (occ + [o])[..|occ|] == occ;
      assert |PostsIn(occ + [o], n)| == |PostsIn(occ, n)| + (if o.tag == n then 1 else 0);
      assert o.tag in names <==> o.tag in init || o.tag == n;
      assert n !in init;
    }
  }

  lemma {:induction false} SumOfTally(occ: seq<Occurrence>)
    ensures SumKeys(TagsOver(occ, NamesIn(occ)), CountOf) == |occ|
  {
    if occ != [] {
      var init := occ[..|occ| - 1];
      var o := occ[|occ| - 1];
      var names := NamesIn(init);
      SumOfTally(init);
      NamesInDistinct(init);
      assert occ == init + [o];
      SumShift(init, o, names);
      if o.tag !in names {
        var t := TagsOver(occ, names + [o.tag]);
        assert t[..|names|] == TagsOver(occ, names);
        PostsInNamed(init, o.tag);
      }
    }
  }

  /** The counts add up to the number of array elements over all posts. */
  lemma CountsSumToOccurrences(docs: seq<TagDoc>)
    ensures SumKeys(TagIndex(docs), CountOf) == |Occurrences(docs)|
  {
    SumKeysSortDesc(Tally(docs), CountOf, CountOf);
    SumKeysSortDesc(Created(docs), RankOf, CountOf);
    SumOfTally(Occurrences(docs));
  }
}
