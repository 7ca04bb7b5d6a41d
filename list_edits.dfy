/** The two list edits that the order form and the edit dialog both perform
    on their state: toggling a tag and dropping the image at an index; and
    the subsequence relation that the filters of the list and the statistics
    pages keep. */
module ListEdits {

  /** `s.filter(t => t !== x)`. */
  function RemoveAll(s: seq<string>, x: string): (r: seq<string>)
    ensures x !in r
    ensures forall y :: y in r <==> y in s && y != x
    ensures |r| <= |s|
  {
    if s == [] then []
    else if s[0] == x then RemoveAll(s[1..], x)
    else [s[0]] + RemoveAll(s[1..], x)
  }

  /** The filter works element by element: the parts of a list are filtered
      one after the other, and a single element goes exactly when it is `x`. */
  lemma {:induction false} RemoveAllAppend(a: seq<string>, b: seq<string>, x: string)
    ensures RemoveAll(a + b, x) == RemoveAll(a, x) + RemoveAll(b, x)
    ensures forall y :: RemoveAll([y], x) == if y == x then [] else [y]
  {
    if a == [] {
      assert a + b == b;
    } else {
      assert (a + b)[0] == a[0] && (a + b)[1..] == a[1..] + b;
      RemoveAllAppend(a[1..], b, x);
    }
    forall y
      ensures RemoveAll([y], x) == if y == x then [] else [y]
    {
      assert [y][1..] == [];
    }
  }

  /** What the filter keeps it keeps in its order. */
  lemma {:induction false} RemoveAllKeepsOrder(s: seq<string>, x: string)
    ensures SubsequenceOf(RemoveAll(s, x), s)
  {
    if s != [] {
      var rest := RemoveAll(s[1..], x);
      RemoveAllKeepsOrder(s[1..], x);
      if s[0] != x {
        assert ([s[0]] + rest)[1..] == rest;
      } else if rest != [] {
        assert rest[0] in rest;
      }
    }
  }

  lemma {:induction false} RemoveAllAppended(s: seq<string>, x: string)
    requires x !in s
    ensures RemoveAll(s + [x], x) == s
  {
    if s == [] {
      assert [x][1..] == [];
    } else {
      assert (s + [x])[1..] == s[1..] + [x];
      RemoveAllAppended(s[1..], x);
    }
  }

  /** `prev.includes(tag) ? prev.filter(t => t !== tag) : [...prev, tag]`:
      a present tag leaves together with every copy of it, the order of the
      others kept; an absent tag joins at the end. */
  function ToggleTag(tags: seq<string>, tag: string): (r: seq<string>)
    ensures tag in tags ==> tag !in r && forall t :: t in r <==> t in tags && t != tag
    ensures tag in tags ==> SubsequenceOf(r, tags)
    ensures tag !in tags ==> r == tags + [tag]
  {
    if tag in tags then RemoveAllKeepsOrder(tags, tag); RemoveAll(tags, tag) else tags + [tag]
  }

  /** Selecting a tag that was not selected and then deselecting it gives the
      list back exactly. */
  lemma ToggleAbsentTwice(tags: seq<string>, tag: string)
    requires tag !in tags
    ensures ToggleTag(ToggleTag(tags, tag), tag) == tags
  {
    RemoveAllAppended(tags, tag);
  }

  /** Toggling any tag twice keeps the set of selected tags. */
  lemma ToggleTwiceKeepsMembership(tags: seq<string>, tag: string, t: string)
    ensures t in ToggleTag(ToggleTag(tags, tag), tag) <==> t in tags
  {
    if tag !in tags {
      ToggleAbsentTwice(tags, tag);
    }
  }

  /** `s.filter((_, i) => i !== idx)`: the element at `idx` goes, the rest
      keep their order; an index outside the list changes nothing. */
  function RemoveAt<T>(s: seq<T>, idx: int): (r: seq<T>)
    ensures 0 <= idx < |s| ==> r == s[..idx] + s[idx + 1..]
    ensures !(0 <= idx < |s|) ==> r == s
  {
    if s == [] then []
    else
      var init := RemoveAt(s[..|s| - 1], idx);
      if |s| - 1 != idx then
        assert s[..|s| - 1] + [s[|s| - 1]] == s;
        init + [s[|s| - 1]]
      else
        init
  }

  /** Dropping the element just appended gives the list back. */
  lemma RemoveAtAppended<T>(s: seq<T>, x: T)
    ensures RemoveAt(s + [x], |s|) == s
  {
    assert (s + [x])[..|s|] == s;
  }

  /** `a` keeps some of the elements of `b`, in their order in `b`. */
  predicate SubsequenceOf<T(==)>(a: seq<T>, b: seq<T>)
    decreases |b|
  {
    if a == [] then true
    else if b == [] then false
    else if a[0] == b[0] then SubsequenceOf(a[1..], b[1..])
    else SubsequenceOf(a, b[1..])
  }

  /** A subsequence stays one when the longer list grows, whether or not
      the shorter one takes the new element. */
  lemma {:induction false} SubsequenceAppend<T>(a: seq<T>, b: seq<T>, x: T, take: bool)
    requires SubsequenceOf(a, b)
    ensures SubsequenceOf(a + (if take then [x] else []), b + [x])
    decreases |b|
  {
    var a' := a + (if take then [x] else []);
    if b == [] {
      assert a == [];
      if take {
        assert a' == [x] && (b + [x])[1..] == [];
      } else {
        assert a' == [];
      }
    } else if a == [] {
      if take {
        assert a' == [x];
        assert (b + [x])[1..] == b[1..] + [x];
        SubsequenceAppend(a, b[1..], x, take);
      }
    } else {
      assert a'[0] == a[0] && (b + [x])[0] == b[0];
      assert (b + [x])[1..] == b[1..] + [x];
      if a[0] == b[0] {
        assert a'[1..] == a[1..] + (if take then [x] else []);
        SubsequenceAppend(a[1..], b[1..], x, take);
      } else {
        SubsequenceAppend(a, b[1..], x, take);
      }
    }
  }
}
