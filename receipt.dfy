/** The layout of the shareable order receipt that `generateWatermarkedImage`
    draws (mytailor5/services/db.ts): the photos stacked at the width of the
    first one, then a white box with a status bar, a two-line header, a
    separator and the note wrapped character by character by `getLines`.
    Image decoding and drawing are outside the model: each photo is its
    decoded size, and `measureText` in the bold note font is a parameter. */
module Receipt {
  import opened Wrappers
  import opened Text
  import opened Orders

  // ---------------------------------------------------------------- line wrapping

  /** What `fillText` draws for the `undefined` that `getLines` returns as the
      only line of an empty text. */
  const UndefinedText: string := "undefined"

  /** The text of a list of lines, put back together. */
  function Flatten(lines: seq<string>): string {
    if lines == [] then "" else lines[0] + Flatten(lines[1..])
  }

  lemma {:induction false} FlattenAppend(a: seq<string>, b: seq<string>)
    ensures Flatten(a + b) == Flatten(a) + Flatten(b)
  {
    if a != [] {
      assert (a + b)[0] == a[0] && (a + b)[1..] == a[1..] + b;
      FlattenAppend(a[1..], b);
      assert Flatten(a + b) == a[0] + (Flatten(a[1..]) + Flatten(b));
    } else {
      assert a + b == b;
    }
  }

  /** The greedy wrapping loop of `getLines` from the point where the line
      being built is `current` and `rest` is still to come. */
  function WrapFrom(current: string, rest: string, measure: string -> real, maxWidth: real): seq<string>
    decreases |rest|
  {
    if rest == [] then [current]
    else if measure(current + [rest[0]]) < maxWidth then
      WrapFrom(current + [rest[0]], rest[1..], measure, maxWidth)
    else
      [current] + WrapFrom([rest[0]], rest[1..], measure, maxWidth)
  }

  /** `getLines(ctx, text, maxWidth)`, with an empty text giving one empty
      line (see `WrapAsWritten` for what the code does there). */
  function Wrap(text: string, measure: string -> real, maxWidth: real): seq<string> {
    if text == [] then [""] else WrapFrom([text[0]], text[1..], measure, maxWidth)
  }

  /** `getLines` as written: on an empty text `words[0]` is `undefined`, the
      loop does not run and that `undefined` becomes the only line. */
  function WrapAsWritten(text: string, measure: string -> real, maxWidth: real): seq<string> {
    if text == [] then [UndefinedText] else Wrap(text, measure, maxWidth)
  }

  /** `getLines`: `currentLine` grows by one character while the measured
      width stays below `maxWidth`, and is pushed as a line otherwise. */
  method GetLines(text: string, measure: string -> real, maxWidth: real) returns (lines: seq<string>)
    ensures lines == Wrap(text, measure, maxWidth)
  {
    if text == [] {
      return [""];
    }
    lines := [];
    var current := [text[0]];
    var i := 1;
    while i < |text|
      invariant 1 <= i <= |text|
      invariant lines + WrapFrom(current, text[i..], measure, maxWidth) == Wrap(text, measure, maxWidth)
    {
      var word := text[i];
      assert text[i..][0] == word && text[i..][1..] == text[i + 1..];
      if measure(current + [word]) < maxWidth {
        current := current + [word];
      } else {
        assert lines + WrapFrom(current, text[i..], measure, maxWidth)
            == (lines + [current]) + WrapFrom([word], text[i + 1..], measure, maxWidth);
        lines := lines + [current];
        current := [word];
      }
      i := i + 1;
    }
    assert text[i..] == [];
    lines := lines + [current];
  }

  /** Each character after the first of `line` was added because the line
      with it measured below `maxWidth`. */
  predicate Fits(line: string, measure: string -> real, maxWidth: real) {
    forall j :: 2 <= j <= |line| ==> measure(line[..j]) < maxWidth
  }

  /** Each line ends where adding the next line's first character would have
      reached `maxWidth`. */
  predicate BreaksAreForced(lines: seq<string>, measure: string -> real, maxWidth: real) {
    forall k :: 1 <= k < |lines| ==>
      lines[k] != [] && measure(lines[k - 1] + [lines[k][0]]) >= maxWidth
  }

  lemma {:induction false} WrapFromKeepsText(current: string, rest: string, measure: string -> real, maxWidth: real)
    requires current != []
    ensures var lines := WrapFrom(current, rest, measure, maxWidth);
            && Flatten(lines) == current + rest
            && 1 <= |lines| <= 1 + |rest|
            && current <= lines[0]
            && (forall k :: 0 <= k < |lines| ==> lines[k] != [])
    decreases |rest|
  {
    if rest != [] {
      var c := current + [rest[0]];
      assert c + rest[1..] == current + rest;
      if measure(c) < maxWidth {
        WrapFromKeepsText(c, rest[1..], measure, maxWidth);
      } else {
        var tail := WrapFrom([rest[0]], rest[1..], measure, maxWidth);
        WrapFromKeepsText([rest[0]], rest[1..], measure, maxWidth);
        assert ([current] + tail)[1..] == tail;
        assert [rest[0]] + rest[1..] == rest;
      }
    }
  }

  predicate AllFit(lines: seq<string>, measure: string -> real, maxWidth: real) {
    forall k :: 0 <= k < |lines| ==> Fits(lines[k], measure, maxWidth)
  }

  lemma {:induction false} WrapFromFits(current: string, rest: string, measure: string -> real, maxWidth: real)
    requires current != [] && Fits(current, measure, maxWidth)
    ensures AllFit(WrapFrom(current, rest, measure, maxWidth), measure, maxWidth)
    decreases |rest|
  {
    if rest != [] {
      var c := current + [rest[0]];
      if measure(c) < maxWidth {
        forall j | 2 <= j <= |c| ensures measure(c[..j]) < maxWidth {
          if j <= |current| {
            assert c[..j] == current[..j];
          } else {
            assert c[..j] == c;
          }
        }
        WrapFromFits(c, rest[1..], measure, maxWidth);
      } else {
        var tail := WrapFrom([rest[0]], rest[1..], measure, maxWidth);
        WrapFromFits([rest[0]], rest[1..], measure, maxWidth);
        var lines := [current] + tail;
        forall k | 0 <= k < |lines| ensures Fits(lines[k], measure, maxWidth) {
          if k > 0 {
            assert lines[k] == tail[k - 1];
          }
        }
      }
    }
  }

  lemma {:induction false} WrapFromBreaks(current: string, rest: string, measure: string -> real, maxWidth: real)
    requires current != []
    ensures BreaksAreForced(WrapFrom(current, rest, measure, maxWidth), measure, maxWidth)
    decreases |rest|
  {
    if rest != [] {
      var c := current + [rest[0]];
      if measure(c) < maxWidth {
        WrapFromBreaks(c, rest[1..], measure, maxWidth);
      } else {
        var tail := WrapFrom([rest[0]], rest[1..], measure, maxWidth);
        WrapFromBreaks([rest[0]], rest[1..], measure, maxWidth);
        WrapFromKeepsText([rest[0]], rest[1..], measure, maxWidth);
        var lines := [current] + tail;
        forall k | 1 <= k < |lines|
          ensures lines[k] != [] && measure(lines[k - 1] + [lines[k][0]]) >= maxWidth
        {
          assert lines[k] == tail[k - 1];
          if k > 1 {
            assert lines[k - 1] == tail[k - 2];
          } else {
            assert tail[0][0] == rest[0];
          }
        }
      }
    }
  }

  /** `getLines` on any text: the lines put back together are the text; on a
      non-empty text every line is non-empty and there are between one and
      `|text|` lines; each line grew only while it measured below `maxWidth`
      and was cut only where the next character would have reached it. */
  lemma WrapProperties(text: string, measure: string -> real, maxWidth: real)
    ensures var lines := Wrap(text, measure, maxWidth);
            && Flatten(lines) == text
            && (text != [] ==> 1 <= |lines| <= |text| && forall k :: 0 <= k < |lines| ==> lines[k] != [])
            && AllFit(lines, measure, maxWidth)
            && BreaksAreForced(lines, measure, maxWidth)
  {
    if text != [] {
      assert [text[0]] + text[1..] == text;
      WrapFromKeepsText([text[0]], text[1..], measure, maxWidth);
      WrapFromFits([text[0]], text[1..], measure, maxWidth);
      WrapFromBreaks([text[0]], text[1..], measure, maxWidth);
    }
  }

  /** An empty text is drawn as the word "undefined" by the code as written,
      so the lines no longer give the text back. */
  lemma EmptyTextDrawsUndefined(measure: string -> real, maxWidth: real)
    ensures WrapAsWritten("", measure, maxWidth) == [UndefinedText]
    ensures Flatten(WrapAsWritten("", measure, maxWidth)) != ""
  {
  }

  // ---------------------------------------------------------------- the note

  const NotePrefix: string := "备注: "

  /** `"备注: " + (order.note || "无")`. */
  function FullNote(note: string): (r: string)
    ensures StartsWith(r, NotePrefix)
  {
    NotePrefix + (if note == "" then "无" else note)
  }

  /** The wrapped lines of every piece of the note, in order. */
  function WrapAll(pieces: seq<string>, measure: string -> real, maxWidth: real): seq<string> {
    if pieces == [] then []
    else WrapAll(pieces[..|pieces| - 1], measure, maxWidth) + Wrap(pieces[|pieces| - 1], measure, maxWidth)
  }

  function WrapAllAsWritten(pieces: seq<string>, measure: string -> real, maxWidth: real): seq<string> {
    if pieces == [] then []
    else WrapAllAsWritten(pieces[..|pieces| - 1], measure, maxWidth)
         + WrapAsWritten(pieces[|pieces| - 1], measure, maxWidth)
  }

  /** The note lines: the full note split at line breaks, each piece wrapped
      by `getLines`, the results concatenated. */
  function NoteText(note: string, measure: string -> real, maxWidth: real): seq<string> {
    WrapAll(Split(FullNote(note), '\n'), measure, maxWidth)
  }

  /** The `forEach` that spreads the wrapped pieces into `finalNoteLines`. */
  method NoteLines(note: string, measure: string -> real, maxWidth: real) returns (lines: seq<string>)
    ensures lines == NoteText(note, measure, maxWidth)
  {
    var pieces := Split(FullNote(note), '\n');
    lines := [];
    var i := 0;
    while i < |pieces|
      invariant 0 <= i <= |pieces|
      invariant lines == WrapAll(pieces[..i], measure, maxWidth)
    {
      var more := GetLines(pieces[i], measure, maxWidth);
      assert pieces[..i + 1][..i] == pieces[..i];
      lines := lines + more;
      i := i + 1;
    }
    assert pieces[..i] == pieces;
  }

  /** Wrapping loses no text of any piece, and every piece takes at least one
      line. */
  lemma {:induction false} WrapAllKeepsText(pieces: seq<string>, measure: string -> real, maxWidth: real)
    ensures Flatten(WrapAll(pieces, measure, maxWidth)) == Flatten(pieces)
    ensures |WrapAll(pieces, measure, maxWidth)| >= |pieces|
  {
    if pieces != [] {
      var init := pieces[..|pieces| - 1];
      var last := pieces[|pieces| - 1];
      WrapAllKeepsText(init, measure, maxWidth);
      WrapProperties(last, measure, maxWidth);
      FlattenAppend(WrapAll(init, measure, maxWidth), Wrap(last, measure, maxWidth));
      assert init + [last] == pieces;
      FlattenAppend(init, [last]);
      assert Flatten([last]) == last + Flatten([]);
      if last != [] {
        assert |Wrap(last, measure, maxWidth)| >= 1;
      }
    }
  }

  /** A note ending with a line break gives an empty last piece, which the
      code as written draws as "undefined" in the last line of the receipt. */
  lemma TrailingLineBreakDrawsUndefined(note: string, measure: string -> real, maxWidth: real)
    requires EndsWith(note, "\n")
    ensures var lines := WrapAllAsWritten(Split(FullNote(note), '\n'), measure, maxWidth);
            |lines| >= 1 && lines[|lines| - 1] == UndefinedText
  {
    var full := FullNote(note);
    assert full == full[..|full| - 1] + ['\n'];
    SplitTrailingSeparator(full[..|full| - 1], '\n');
  }

  // ---------------------------------------------------------------- the canvas

  /** A decoded photo. A photo that loads has a positive width, which the
      scaling divides by. */
  datatype Size = Size(width: nat, height: nat)

  predicate Decoded(s: Size) {
    s.width > 0
  }

  /** `Math.max(28, Math.floor(canvasWidth / 22))`: the padding, which is also
      the font size. */
  function Padding(canvasWidth: nat): (p: nat)
    ensures p >= 28 && p >= canvasWidth / 22
    ensures p == 28 || p == canvasWidth / 22
  {
    if canvasWidth / 22 > 28 then canvasWidth / 22 else 28
  }

  /** `fontSize * 1.5`. */
  function LineHeight(padding: nat): real {
    padding as real * 1.5
  }

  /** `(canvasWidth / img.width) * img.height`. */
  function ScaledHeight(image: Size, canvasWidth: nat): (h: real)
    requires Decoded(image)
    ensures h >= 0.0
  {
    var ratio := canvasWidth as real / image.width as real;
    assert ratio >= 0.0;
    MulNonNegative(ratio, image.height as real);
    ratio * image.height as real
  }

  lemma MulNonNegative(x: real, y: real)
    requires x >= 0.0 && y >= 0.0
    ensures x * y >= 0.0
  {
  }

  /** Each photo's height once scaled to `canvasWidth`. */
  function ScaledHeights(images: seq<Size>, canvasWidth: nat): (hs: seq<real>)
    requires forall k :: 0 <= k < |images| ==> Decoded(images[k])
    ensures |hs| == |images|
    ensures forall k :: 0 <= k < |images| ==> hs[k] == ScaledHeight(images[k], canvasWidth)
  {
    seq(|images|, k requires 0 <= k < |images| && Decoded(images[k]) => ScaledHeight(images[k], canvasWidth))
  }

  function SumR(s: seq<real>): real {
    if s == [] then 0.0 else SumR(s[..|s| - 1]) + s[|s| - 1]
  }

  const SeparatorHeight: real := 20.0

  /** `padding + headerHeight + separatorHeight + noteHeight + padding`. */
  function TextBoxHeight(padding: nat, lines: nat): real {
    var lh := LineHeight(padding);
    padding as real + (lh * 2.0 + padding as real / 2.0) + SeparatorHeight + lines as real * lh + padding as real
  }

  /** The `currentY` loop: each photo is drawn where the ones above it end. */
  method StackImages(heights: seq<real>) returns (tops: seq<real>, bottom: real)
    ensures |tops| == |heights|
    ensures forall k :: 0 <= k < |heights| ==> tops[k] == SumR(heights[..k])
    ensures bottom == SumR(heights)
  {
    tops := [];
    var y := 0.0;
    var i := 0;
    while i < |heights|
      invariant 0 <= i <= |heights| && |tops| == i
      invariant forall k :: 0 <= k < i ==> tops[k] == SumR(heights[..k])
      invariant y == SumR(heights[..i])
    {
      assert heights[..i + 1][..i] == heights[..i];
      tops := tops + [y];
      y := y + heights[i];
      i := i + 1;
    }
    assert heights[..i] == heights;
    bottom := y;
  }

  lemma {:induction false} SumRPrefix(s: seq<real>, k: nat)
    requires k <= |s|
    requires forall i :: 0 <= i < |s| ==> s[i] >= 0.0
    ensures SumR(s[..k]) <= SumR(s)
    decreases |s| - k
  {
    if k < |s| {
      var t := s[..|s| - 1];
      assert t[..k] == s[..k];
      SumRPrefix(t, k);
      assert s[..|s|] == s;
    }
  }

  /** The photos tile the top of the canvas: each starts where the previous
      one ends, and all of them end by the top of the text box. */
  lemma ImagesTile(heights: seq<real>, k: nat)
    requires k < |heights|
    requires forall i :: 0 <= i < |heights| ==> heights[i] >= 0.0
    ensures SumR(heights[..k]) + heights[k] == SumR(heights[..k + 1])
    ensures SumR(heights[..k + 1]) <= SumR(heights)
  {
    assert heights[..k + 1][..k] == heights[..k];
    SumRPrefix(heights, k + 1);
  }

  /** `n` baselines, the first at `first`, one line height apart. */
  predicate Spaced(ys: seq<real>, first: real, lineHeight: real, n: nat) {
    |ys| == n && forall k :: 0 <= k < n ==> ys[k] == first + k as real * lineHeight
  }

  /** The `textY` loop over the note lines. */
  method PlaceLines(first: real, lineHeight: real, n: nat) returns (ys: seq<real>)
    ensures Spaced(ys, first, lineHeight, n)
  {
    ys := [];
    var y := first;
    while |ys| < n
      invariant |ys| <= n
      invariant y == first + |ys| as real * lineHeight
      invariant forall k :: 0 <= k < |ys| ==> ys[k] == first + k as real * lineHeight
    {
      ys := ys + [y];
      y := y + lineHeight;
    }
  }

  datatype Layout = Layout(
    width: nat,
    height: real,
    padding: nat,
    imageTops: seq<real>,
    imageHeights: seq<real>,
    boxY: real,
    barColor: string,
    customerLine: string,
    priceLine: string,
    priceX: real,
    dateLine: string,
    noteLines: seq<string>,
    noteBaselines: seq<real>)

  /** The error a photo that fails to load rejects `Promise.all` with; the
      browser's error event itself is not modelled. */
  const LoadError: string := "image load failed"

  /** The photos, when every one of them loaded. */
  function AllLoaded(loads: seq<Option<Size>>): (r: Option<seq<Size>>)
    ensures r.Some? <==> forall k :: 0 <= k < |loads| ==> loads[k].Some?
    ensures r.Some? ==> |r.value| == |loads| && forall k :: 0 <= k < |loads| ==> r.value[k] == loads[k].value
  {
    if loads == [] then Some([])
    else match (AllLoaded(loads[..|loads| - 1]), loads[|loads| - 1])
      case (Some(init), Some(last)) => Some(init + [last])
      case _ => None
  }

  /** The baseline of the first note line: below the top padding, the two
      header lines, half a padding and the separator. */
  function FirstNoteBaseline(boxY: real, padding: nat): real {
    boxY + padding as real + padding as real + LineHeight(padding) + padding as real / 2.0
    + SeparatorHeight + padding as real / 2.0
  }

  /** What the receipt of `order` over the decoded photos `images` is: the
      canvas is as wide as the first photo, every photo is scaled to that
      width and stacked from the top, the text box starts where the photos
      end, the canvas is as high as the photos plus the text box, the note
      lines are the wrapped note, one line height apart, and the price is
      right-aligned one padding from the right edge. */
  ghost predicate IsReceiptLayout(l: Layout, order: Order, images: seq<Size>, measure: string -> real)
    requires |images| > 0 && forall k :: 0 <= k < |images| ==> Decoded(images[k])
  {
    var w := images[0].width;
    var p := Padding(w);
    var scaled := ScaledHeights(images, w);
    var lines := NoteText(order.note, measure, (w as int - 2 * p) as real);
    && l.width == w && l.padding == p
    && l.imageHeights == scaled
    && |l.imageTops| == |images| && (forall k :: 0 <= k < |images| ==> l.imageTops[k] == SumR(scaled[..k]))
    && l.boxY == SumR(scaled)
    && l.height == SumR(scaled) + TextBoxHeight(p, |lines|)
    && l.noteLines == lines
    && Spaced(l.noteBaselines, FirstNoteBaseline(l.boxY, p), LineHeight(p), |lines|)
    && l.priceX + measure(l.priceLine) == (w as int - p) as real
  }

  /** The drawing of `generateWatermarkedImage` once every photo has loaded. */
  method LayOut(order: Order, images: seq<Size>, measure: string -> real, loc: Locale) returns (l: Layout)
    requires |images| > 0 && forall k :: 0 <= k < |images| ==> Decoded(images[k])
    ensures IsReceiptLayout(l, order, images, measure)
    ensures l.barColor == (if order.status == Completed then "#22c55e" else "#ea580c")
    ensures l.priceLine == "价格: ¥" + loc.number(order.price)
  {
    var w := images[0].width;
    var p := Padding(w);
    var lh := LineHeight(p);
    var scaled := ScaledHeights(images, w);
    var lines := NoteLines(order.note, measure, (w as int - 2 * p) as real);
    var tops, boxY := StackImages(scaled);
    var height := boxY + TextBoxHeight(p, |lines|);
    var bar := if order.status == Completed then "#22c55e" else "#ea580c";
    var customer := "顾客: " + (if order.customerName == "" then "未填写" else order.customerName);
    var priceLine := "价格: ¥" + loc.number(order.price);
    var priceX := (w as int - p) as real - measure(priceLine);
    var sourceText := if order.source == Some(Offline) then "线下实体" else "线上闲鱼";
    var dateLine := "时间: " + loc.date(order.createdAt) + " (" + sourceText + ")";
    var textY := boxY + p as real + p as real;
    textY := textY + lh;
    textY := textY + p as real / 2.0;
    textY := textY + SeparatorHeight + p as real / 2.0;
    assert textY == FirstNoteBaseline(boxY, p);
    var baselines := PlaceLines(textY, lh, |lines|);
    l := Layout(w, height, p, tops, scaled, boxY, bar, customer, priceLine, priceX, dateLine,
                lines, baselines);
  }

  /** `generateWatermarkedImage` up to the drawing: a photo that fails to
      load fails the whole call, no photo at all fails with "No images",
      otherwise the receipt is laid out. `loads` is what each `loadImage`
      gave (`None` when it failed), `measure` the width of a text in the bold
      font. */
  method ComposeReceipt(order: Order, loads: seq<Option<Size>>, measure: string -> real, loc: Locale)
    returns (r: Result<Layout>)
    requires forall k :: 0 <= k < |loads| ==> loads[k].Some? ==> Decoded(loads[k].value)
    ensures (exists k :: 0 <= k < |loads| && loads[k].None?) ==> r == Failure(LoadError)
    ensures loads == [] ==> r == Failure("No images")
    ensures r.Success? <==> |loads| > 0 && forall k :: 0 <= k < |loads| ==> loads[k].Some?
    ensures r.Success? ==> IsReceiptLayout(r.value, order, AllLoaded(loads).value, measure)
  {
    var images := AllLoaded(loads);
    if images.None? {
      return Failure(LoadError);
    }
    if |images.value| == 0 {
      return Failure("No images");
    }
    var l := LayOut(order, images.value, measure, loc);
    r := Success(l);
  }

  /** Every note line sits inside the text box, at least two paddings above
      the bottom edge of the canvas, so the note is never cut off. */
  lemma NoteFitsInBox(boxY: real, p: nat, n: nat, k: nat)
    requires k < n
    ensures var y := FirstNoteBaseline(boxY, p) + k as real * LineHeight(p);
            boxY < y && y + 2.0 * p as real <= boxY + TextBoxHeight(p, n)
  {
    var lh := LineHeight(p);
    assert k as real * lh <= (n - 1) as real * lh;
  }

  /** The first photo is drawn at its own size: its scaled height is its
      height. */
  lemma FirstImageUnscaled(images: seq<Size>)
    requires |images| > 0 && forall k :: 0 <= k < |images| ==> Decoded(images[k])
    ensures ScaledHeights(images, images[0].width)[0] == images[0].height as real
  {
  }
}
