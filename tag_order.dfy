/**
 * The tag ordering used by the serializer: each tag name is paired with its
 * registry colour and position, the list is sorted with the source's
 * comparator, and the positions are dropped again.
 */
module TagOrder {
  import opened Wrappers
  import opened AnnotationData

  /** A tag while it is being sorted: name, registry colour, registry position. */
  datatype SortTag = SortTag(name: string, color: Option<string>, position: Option<int>)

  /**
   * Stand-in for `Zotero.localeCompare`: lexicographic order on character codes.
   * Any total order on strings serves; this one is proved total below.
   */
  function LocaleCompare(a: string, b: string): (r: int)
    ensures -1 <= r <= 1
  {
    if a == [] && b == [] then 0
    else if a == [] then -1
    else if b == [] then 1
    else if a[0] < b[0] then -1
    else if b[0] < a[0] then 1
    else LocaleCompare(a[1..], b[1..])
  }

  lemma {:induction false} LocaleCompareAntisymmetric(a: string, b: string)
    ensures LocaleCompare(a, b) == -LocaleCompare(b, a)
  {
    if a != [] && b != [] && a[0] == b[0] {
      LocaleCompareAntisymmetric(a[1..], b[1..]);
    }
  }

  lemma {:induction false} LocaleCompareZeroIffEqual(a: string, b: string)
    ensures LocaleCompare(a, b) == 0 <==> a == b
  {
    if a != [] && b != [] && a[0] == b[0] {
      LocaleCompareZeroIffEqual(a[1..], b[1..]);
      assert a == [a[0]] + a[1..] && b == [b[0]] + b[1..];
    }
  }

  lemma {:induction false} LocaleCompareTransitive(a: string, b: string, c: string)
    requires LocaleCompare(a, b) <= 0 && LocaleCompare(b, c) <= 0
    ensures LocaleCompare(a, c) <= 0
  {
    if a != [] && b != [] && c != [] && a[0] == b[0] == c[0] {
      LocaleCompareTransitive(a[1..], b[1..], c[1..]);
    }
  }

  /** JavaScript truthiness of a tag's colour: a missing colour and "" are falsy. */
  predicate Colored(t: SortTag) {
    TruthyString(t.color)
  }

  /**
   * The comparator handed to `tags.sort`. The second test repeats the first and
   * can never succeed. In the last case a missing position makes the
   * difference NaN, which the sort treats as 0.
   */
  function Compare(a: SortTag, b: SortTag): int {
    if !Colored(a) && !Colored(b) then LocaleCompare(a.name, b.name)
    else if !Colored(a) && !Colored(b) then assert false; -1
    else if !Colored(a) && Colored(b) then 1
    else if a.position.Some? && b.position.Some? then a.position.value - b.position.value
    else 0
  }

  /** The comparator, case by case. */
  lemma CompareCases(a: SortTag, b: SortTag)
    ensures !Colored(a) && !Colored(b) ==> Compare(a, b) == LocaleCompare(a.name, b.name)
    ensures !Colored(a) && Colored(b) ==> Compare(a, b) > 0
    ensures Colored(a) && Colored(b) && a.position.Some? && b.position.Some? ==>
              Compare(a, b) == a.position.value - b.position.value
    ensures Colored(a) && b.position.None? ==> Compare(a, b) == 0
  {
  }

  /**
   * The comparator is not consistent in the sense of ECMA-262 (the definition of
   * Array.prototype.sort): a coloured tag and an uncoloured one compare as equal
   * one way and as "greater" the other way, so the order an engine produces for
   * mixed lists is implementation-defined.
   */
  lemma CompareInconsistentOnMixed(a: SortTag, b: SortTag)
    requires Colored(a) && !Colored(b) && b.position.None?
    ensures Compare(a, b) == 0 && Compare(b, a) == 1
  {
  }

  /** Lines 57-67: the tag object for a name, with colour and position when the registry has it. */
  function WithRegistryColor(name: string, colors: map<string, TagColor>): (t: SortTag)
    ensures t.name == name
    ensures t.color.Some? <==> name in colors
    ensures t.position.Some? <==> name in colors
    ensures name in colors ==> t.color.value == colors[name].color && t.position.value == colors[name].position
  {
    if name in colors then SortTag(name, Some(colors[name].color), Some(colors[name].position))
    else SortTag(name, None, None)
  }

  function WithRegistryColors(names: seq<string>, colors: map<string, TagColor>): (ts: seq<SortTag>)
    ensures |ts| == |names|
    ensures forall i :: 0 <= i < |names| ==> ts[i] == WithRegistryColor(names[i], colors)
  {
    seq(|names|, i requires 0 <= i < |names| => WithRegistryColor(names[i], colors))
  }

  /**
   * The names of tags being sorted. `AnnotationData.JsonTagNames` is the same
   * projection on the JSON tag type; the two element types differ, so each has its own.
   */
  function Names(s: seq<SortTag>): (ns: seq<string>)
    ensures |ns| == |s|
  {
    seq(|s|, i requires 0 <= i < |s| => s[i].name)
  }

  /** Inserts `x` before the first element it does not compare greater than (stable). */
  function Insert(x: SortTag, s: seq<SortTag>): (r: seq<SortTag>)
    ensures |r| == |s| + 1
    ensures multiset(r) == multiset(s) + multiset{x}
  {
    if s == [] then [x]
    else if Compare(x, s[0]) <= 0 then [x] + s
    else
      assert s == [s[0]] + s[1..];
      [s[0]] + Insert(x, s[1..])
  }

  /** The concrete sort: insertion sort with `Compare`. */
  function Sort(s: seq<SortTag>): (r: seq<SortTag>)
    ensures |r| == |s|
    ensures multiset(r) == multiset(s)
  {
    if s == [] then []
    else
      assert s == [s[0]] + s[1..];
      Insert(s[0], Sort(s[1..]))
  }

  lemma NamesCons(x: SortTag, s: seq<SortTag>)
    ensures Names([x] + s) == [x.name] + Names(s)
  {
  }

  lemma {:induction false} InsertNames(x: SortTag, s: seq<SortTag>)
    ensures multiset(Names(Insert(x, s))) == multiset(Names(s)) + multiset{x.name}
  {
    if s == [] {
      NamesCons(x, []);
    } else {
      NamesCons(s[0], s[1..]);
      assert s == [s[0]] + s[1..];
      if Compare(x, s[0]) <= 0 {
        NamesCons(x, s);
      } else {
        InsertNames(x, s[1..]);
        NamesCons(s[0], Insert(x, s[1..]));
      }
    }
  }

  /** Sorting permutes the tag names. */
  lemma {:induction false} SortNames(s: seq<SortTag>)
    ensures multiset(Names(Sort(s))) == multiset(Names(s))
  {
    if s != [] {
      var t := Sort(s[1..]);
      SortNames(s[1..]);
      InsertNames(s[0], t);
      NamesCons(s[0], s[1..]);
      assert s == [s[0]] + s[1..];
    }
  }

  /** `Compare(a, b) <= 0` is a total preorder on the elements of `s`. */
  ghost predicate TotalPreorderOn(s: seq<SortTag>) {
    && (forall a, b :: a in s && b in s ==> Compare(a, b) <= 0 || Compare(b, a) <= 0)
    && (forall a, b, c :: a in s && b in s && c in s && Compare(a, b) <= 0 && Compare(b, c) <= 0 ==>
          Compare(a, c) <= 0)
  }

  ghost predicate Ordered(s: seq<SortTag>) {
    forall i, j :: 0 <= i < j < |s| ==> Compare(s[i], s[j]) <= 0
  }

  /** Inserting at the front keeps the order when `x` comes before the old head. */
  lemma InsertAtFrontOrdered(x: SortTag, s: seq<SortTag>)
    requires s != [] && Compare(x, s[0]) <= 0
    requires Ordered(s) && TotalPreorderOn([x] + s)
    ensures Ordered([x] + s)
  {
    var r := [x] + s;
    forall j | 0 < j < |r| ensures Compare(r[0], r[j]) <= 0 {
      if j > 1 {
        assert Compare(s[0], s[j - 1]) <= 0;
        assert x in r && s[0] in r && s[j - 1] in r;
      }
    }
  }

  /** The old head stays in front when it comes before everything inserted behind it. */
  lemma HeadStaysOrdered(h: SortTag, r: seq<SortTag>)
    requires Ordered(r)
    requires forall k :: 0 <= k < |r| ==> Compare(h, r[k]) <= 0
    ensures Ordered([h] + r)
  {
  }

  /** What `h` comes before, it still comes before after `x` joins, if it comes before `x`. */
  lemma BeforeAllAfterInsert(h: SortTag, x: SortTag, t: seq<SortTag>, r: seq<SortTag>)
    requires multiset(r) == multiset(t) + multiset{x}
    requires Compare(h, x) <= 0
    requires forall j :: 0 <= j < |t| ==> Compare(h, t[j]) <= 0
    ensures forall k :: 0 <= k < |r| ==> Compare(h, r[k]) <= 0
  {
    forall k | 0 <= k < |r| ensures Compare(h, r[k]) <= 0 {
      assert r[k] in multiset(r);
      if r[k] != x {
        assert r[k] in multiset(t);
        var j :| 0 <= j < |t| && t[j] == r[k];
      }
    }
  }

  lemma {:induction false} InsertOrdered(x: SortTag, s: seq<SortTag>)
    requires Ordered(s) && TotalPreorderOn([x] + s)
    ensures Ordered(Insert(x, s))
  {
    if s == [] {
    } else if Compare(x, s[0]) <= 0 {
      InsertAtFrontOrdered(x, s);
    } else {
      var t := s[1..];
      assert x in [x] + s && s[0] in [x] + s;
      assert Compare(s[0], x) <= 0;
      PreorderOnSubset([x] + s, [x] + t);
      InsertOrdered(x, t);
      var r := Insert(x, t);
      BeforeAllAfterInsert(s[0], x, t, r);
      HeadStaysOrdered(s[0], r);
    }
  }

  lemma PreorderOnSubset(s: seq<SortTag>, t: seq<SortTag>)
    requires TotalPreorderOn(s)
    requires forall y :: y in t ==> y in s
    ensures TotalPreorderOn(t)
  {
  }

  /** Whenever the comparator is a total preorder on the input, the sort orders it. */
  lemma {:induction false} SortOrdered(s: seq<SortTag>)
    requires TotalPreorderOn(s)
    ensures Ordered(Sort(s))
  {
    if s != [] {
      var t := s[1..];
      PreorderOnSubset(s, t);
      SortOrdered(t);
      var st := Sort(t);
      forall y | y in [s[0]] + st ensures y in s {
        if y != s[0] {
          assert y in multiset(st);
        }
      }
      PreorderOnSubset(s, [s[0]] + st);
      InsertOrdered(s[0], st);
    }
  }

  /** All tags uncoloured: the output is ascending by name. */
  lemma SortUncoloredByName(s: seq<SortTag>)
    requires forall t :: t in s ==> !Colored(t)
    ensures forall i, j :: 0 <= i < j < |Sort(s)| ==> LocaleCompare(Sort(s)[i].name, Sort(s)[j].name) <= 0
  {
    forall a, b | a in s && b in s ensures Compare(a, b) <= 0 || Compare(b, a) <= 0 {
      LocaleCompareAntisymmetric(a.name, b.name);
    }
    forall a, b, c | a in s && b in s && c in s && Compare(a, b) <= 0 && Compare(b, c) <= 0
      ensures Compare(a, c) <= 0
    {
      LocaleCompareTransitive(a.name, b.name, c.name);
    }
    SortOrdered(s);
    var r := Sort(s);
    forall i, j | 0 <= i < j < |r| ensures LocaleCompare(r[i].name, r[j].name) <= 0 {
      assert r[i] in multiset(s) && r[j] in multiset(s);
    }
  }

  /** All tags coloured with a position: the output is ascending by position. */
  lemma SortColoredByPosition(s: seq<SortTag>)
    requires forall t :: t in s ==> Colored(t) && t.position.Some?
    ensures forall i :: 0 <= i < |Sort(s)| ==> Sort(s)[i] in s
    ensures forall i, j :: 0 <= i < j < |Sort(s)| ==> Sort(s)[i].position.value <= Sort(s)[j].position.value
  {
    SortOrdered(s);
    var r := Sort(s);
    forall i | 0 <= i < |r| ensures r[i] in s {
      assert r[i] in multiset(s);
    }
    forall i, j | 0 <= i < j < |r| ensures r[i].position.value <= r[j].position.value {
      assert r[i] in multiset(s) && r[j] in multiset(s);
    }
  }
}
