/** Order identifiers in the order store (mytailor5/services/db.ts): the
    client-side version-4 UUID generator, the UUID test that `saveOrder`
    applies, and its choice of the id under which images are stored. The
    version and variant digits follow section 4.4 of RFC 4122: the version
    nibble is 4 and the two top bits of the variant nibble are 10. */
module StoreIds {

  /** One value of `(Math.random() * 16) | 0`. */
  type Nibble = x: int | 0 <= x < 16

  function Xs(n: nat): string {
    seq(n, _ => 'x')
  }

  /** The template `generateUUID` fills in,
      "xxxxxxxx-xxxx-4xxx-yxxx-xxxxxxxxxxxx", written by its segments. */
  const Template: string :=
    Xs(8) + "-" + Xs(4) + "-4" + Xs(3) + "-y" + Xs(3) + "-" + Xs(12)

  predicate IsHex(c: char) {
    '0' <= c <= '9' || 'a' <= c <= 'f' || 'A' <= c <= 'F'
  }

  /** `[89ab]` under the regular expression's `i` flag. */
  predicate IsVariant(c: char) {
    c in "89abAB"
  }

  predicate AllHex(s: string) {
    forall i :: 0 <= i < |s| ==> IsHex(s[i])
  }

  /** `/^[0-9a-f]{8}-[0-9a-f]{4}-4[0-9a-f]{3}-[89ab][0-9a-f]{3}-[0-9a-f]{12}$/i`. */
  predicate MatchesUuid(s: string) {
    && |s| == 36
    && AllHex(s[0..8]) && s[8] == '-'
    && AllHex(s[9..13]) && s[13] == '-'
    && s[14] == '4' && AllHex(s[15..18]) && s[18] == '-'
    && IsVariant(s[19]) && AllHex(s[20..23]) && s[23] == '-'
    && AllHex(s[24..36])
  }

  /** `v.toString(16)` for one nibble: a lower-case hexadecimal digit. */
  function HexDigit(v: Nibble): (c: char)
    ensures IsHex(c)
  {
    "0123456789abcdef"[v]
  }

  /** `(r & 0x3) | 0x8`: the variant nibble 10xx. */
  function VariantNibble(r: Nibble): (v: Nibble)
    ensures 8 <= v <= 11
  {
    var b := ((r as bv4) & 3) | 8;
    assert 8 <= b as int <= 11 by {
      assert b & 8 == 8 && b & 4 == 0;
    }
    b as int
  }

  /** How many random values the replacement draws for a template. */
  function Draws(t: string): nat {
    if t == [] then 0 else (if t[0] == 'x' || t[0] == 'y' then 1 else 0) + Draws(t[1..])
  }

  /** `t.replace(/[xy]/g, ...)`, the `k`-th random value going to the `k`-th
      `x` or `y` of the template. */
  function Fill(t: string, rs: seq<Nibble>): (r: string)
    requires |rs| == Draws(t)
    ensures |r| == |t|
  {
    if t == [] then []
    else if t[0] == 'x' then [HexDigit(rs[0])] + Fill(t[1..], rs[1..])
    else if t[0] == 'y' then [HexDigit(VariantNibble(rs[0]))] + Fill(t[1..], rs[1..])
    else [t[0]] + Fill(t[1..], rs)
  }

  /** What `Fill` puts in place of each template character. */
  lemma {:induction false} FillAt(t: string, rs: seq<Nibble>, k: int)
    requires |rs| == Draws(t)
    requires 0 <= k < |t|
    ensures t[k] == 'x' ==> IsHex(Fill(t, rs)[k])
    ensures t[k] == 'y' ==> Fill(t, rs)[k] in "89ab"
    ensures t[k] != 'x' && t[k] != 'y' ==> Fill(t, rs)[k] == t[k]
  {
    if k > 0 {
      if t[0] == 'x' || t[0] == 'y' {
        FillAt(t[1..], rs[1..], k - 1);
      } else {
        FillAt(t[1..], rs, k - 1);
      }
    } else if t[0] == 'y' {
      var v := VariantNibble(rs[0]);
      assert HexDigit(v) == "0123456789abcdef"[v];
    }
  }

  /** The segments spell the source's template. */
  lemma TemplateIsSourceText()
    ensures Template == "xxxxxxxx-xxxx-4xxx-yxxx-xxxxxxxxxxxx"
  {
    assert Xs(3) == "xxx";
    assert Xs(4) == "xxxx";
    assert Xs(8) == "xxxxxxxx";
    assert Xs(12) == "xxxxxxxxxxxx";
  }

  lemma {:induction false} DrawsConcat(a: string, b: string)
    ensures Draws(a + b) == Draws(a) + Draws(b)
  {
    if a == [] {
      assert a + b == b;
    } else {
      assert (a + b)[1..] == a[1..] + b;
      DrawsConcat(a[1..], b);
    }
  }

  lemma {:induction false} DrawsXs(n: nat)
    ensures Draws(Xs(n)) == n
  {
    if n > 0 {
      assert Xs(n)[1..] == Xs(n - 1);
      DrawsXs(n - 1);
    }
  }

  lemma TemplateDraws()
    ensures |Template| == 36 && Draws(Template) == 31
  {
    DrawsXs(8); DrawsXs(4); DrawsXs(3); DrawsXs(12);
    var a := Xs(8) + "-";
    DrawsConcat(Xs(8), "-");
    var b := a + Xs(4);
    DrawsConcat(a, Xs(4));
    var c := b + "-4";
    DrawsConcat(b, "-4");
    var d := c + Xs(3);
    DrawsConcat(c, Xs(3));
    var e := d + "-y";
    DrawsConcat(d, "-y");
    var f := e + Xs(3);
    DrawsConcat(e, Xs(3));
    var g := f + "-";
    DrawsConcat(f, "-");
    DrawsConcat(g, Xs(12));
  }

  /** Every x of the template between `a` and `b` becomes a hex digit. */
  lemma HexSegment(rs: seq<Nibble>, a: nat, b: nat)
    requires |rs| == Draws(Template)
    requires a <= b <= |Template|
    requires forall k :: a <= k < b ==> Template[k] == 'x'
    ensures AllHex(Fill(Template, rs)[a..b])
  {
    forall k | a <= k < b ensures IsHex(Fill(Template, rs)[k]) {
      FillAt(Template, rs, k);
    }
  }

  /** `generateUUID`, given the 31 values `Math.random` supplies: its
      result always passes the UUID test. */
  function GenerateUuid(rs: seq<Nibble>): (id: string)
    requires |rs| == 31
    ensures MatchesUuid(id)
  {
    TemplateDraws();
    var id := Fill(Template, rs);
    HexSegment(rs, 0, 8);
    HexSegment(rs, 9, 13);
    HexSegment(rs, 15, 18);
    HexSegment(rs, 20, 23);
    HexSegment(rs, 24, 36);
    FillAt(Template, rs, 8);
    FillAt(Template, rs, 13);
    FillAt(Template, rs, 14);
    FillAt(Template, rs, 18);
    FillAt(Template, rs, 19);
    FillAt(Template, rs, 23);
    id
  }

  /** The id `saveOrder` uses for storage paths: the order's own id when it
      is a UUID, otherwise a fresh one. */
  function StorageOrderId(id: string, rs: seq<Nibble>): (r: string)
    requires |rs| == 31
    ensures MatchesUuid(r)
    ensures MatchesUuid(id) ==> r == id
    ensures !MatchesUuid(id) ==> r == GenerateUuid(rs)
  {
    if id == "" || !MatchesUuid(id) then GenerateUuid(rs) else id
  }
}
