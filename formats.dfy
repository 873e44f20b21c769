/**
 * Choosing what to ask the downloader for, from the format descriptors that
 * the metadata probe returns: the best video-only stream merged with the
 * best audio, else the best stream that carries both, else a generic chain.
 */
module Formats {
  import opened Common
  import opened Text

  /** The JSON-like values found in the probe's metadata. */
  datatype Value =
    | Null
    | Bool(b: bool)
    | Int(i: int)
    | Float(x: real)
    | Str(s: string)
    | List(items: seq<Value>)
    | Dict(fields: map<string, Value>)

  type Fields = map<string, Value>

  /** `d.get(key)`: the value under `key`, or `None` when it is missing. */
  function Get(d: Fields, key: string): Value {
    if key in d then d[key] else Null
  }

  /** Python truthiness. */
  predicate Truthy(v: Value) {
    match v
    case Null => false
    case Bool(b) => b
    case Int(i) => i != 0
    case Float(x) => x != 0.0
    case Str(s) => s != ""
    case List(items) => items != []
    case Dict(fields) => fields != map[]
  }

  /** `a or b`. */
  function Or(a: Value, b: Value): (r: Value)
    ensures Truthy(r) <==> Truthy(a) || Truthy(b)
  {
    if Truthy(a) then a else b
  }

  /** `int(x)` for a real: truncation toward zero. */
  function Truncate(x: real): (r: int)
    ensures 0.0 <= x ==> r as real <= x < r as real + 1.0
    ensures x < 0.0 ==> r as real - 1.0 < x <= r as real
  {
    if x >= 0.0 then x.Floor else -((-x).Floor)
  }

  /** `_to_int(value)`: `int(value)`, and 0 wherever `int` raises. */
  function ToInt(v: Value): (r: int)
    ensures v.Null? || v.List? || v.Dict? ==> r == 0
    ensures v.Bool? ==> r == if v.b then 1 else 0
    ensures v.Float? && 0.0 <= v.x ==> r as real <= v.x < r as real + 1.0
    ensures v.Float? && v.x < 0.0 ==> r as real - 1.0 < v.x <= r as real
    ensures v.Str? && r != 0 ==> exists c :: c in v.s && IsDigit(c)
  {
    match v
    case Bool(b) => if b then 1 else 0
    case Int(i) => i
    case Float(x) => Truncate(x)
    case Str(s) => ParseInt(s).GetOr(0)
    case _ => 0
  }

  /** `_to_float(value)`: `float(value)`, and 0.0 wherever `float` raises. */
  function ToFloat(v: Value): (r: real)
    ensures v.Null? || v.List? || v.Dict? ==> r == 0.0
    ensures v.Bool? ==> r == if v.b then 1.0 else 0.0
    ensures v.Int? ==> r == v.i as real
  {
    match v
    case Bool(b) => if b then 1.0 else 0.0
    case Int(i) => i as real
    case Float(x) => x
    case Str(s) => ParseDecimal(s).GetOr(0.0)
    case _ => 0.0
  }

  /** A number written out in decimal reads back as itself through `int`. */
  lemma NumberTextReadsBack(i: int)
    ensures ToInt(Str(IntToString(i))) == i
  {
    ParseIntOfIntToString(i);
  }

  /** `str(value)` for the kinds of value a format id takes. */
  function AsText(v: Value): string {
    match v
    case Str(s) => s
    case Int(i) => IntToString(i)
    case Bool(b) => if b then "True" else "False"
    case _ => ""
  }

  /** `_stream_sort_key(fmt)`: height, frame rate, bitrate, size. */
  datatype SortKey = SortKey(height: int, fps: real, bitrate: real, size: int)

  function Key(fmt: Fields): (k: SortKey)
    ensures "height" !in fmt ==> k.height == 0
    ensures "fps" !in fmt ==> k.fps == 0.0
    ensures k.bitrate == ToFloat(if Truthy(Get(fmt, "tbr")) then fmt["tbr"] else Get(fmt, "vbr"))
    ensures k.size == ToInt(if Truthy(Get(fmt, "filesize")) then fmt["filesize"] else Get(fmt, "filesize_approx"))
  {
    SortKey(
      ToInt(Get(fmt, "height")),
      ToFloat(Get(fmt, "fps")),
      ToFloat(Or(Get(fmt, "tbr"), Get(fmt, "vbr"))),
      ToInt(Or(Get(fmt, "filesize"), Get(fmt, "filesize_approx"))))
  }

  /** Tuple order: the first differing component decides. */
  predicate KeyLess(a: SortKey, b: SortKey) {
    a.height < b.height
    || (a.height == b.height && a.fps < b.fps)
    || (a.height == b.height && a.fps == b.fps && a.bitrate < b.bitrate)
    || (a.height == b.height && a.fps == b.fps && a.bitrate == b.bitrate && a.size < b.size)
  }

  lemma KeyLessTotal(a: SortKey, b: SortKey)
    ensures KeyLess(a, b) || KeyLess(b, a) || a == b
    ensures !(KeyLess(a, b) && KeyLess(b, a))
  {
  }

  lemma KeyLessTransitive(a: SortKey, b: SortKey, c: SortKey)
    requires KeyLess(a, b) && KeyLess(b, c)
    ensures KeyLess(a, c)
  {
  }

  // ---------------------------------------------------------------------------
  // Classifying the descriptors.

  datatype StreamKind = VideoOnly | Progressive

  /** `codec not in (None, "none")`. */
  predicate HasCodec(fmt: Fields, key: string) {
    Get(fmt, key) != Null && Get(fmt, key) != Str("none")
  }

  /**
   * What the first loop of `choose_download_format` does with one entry:
   * non-dictionaries, entries without a format id and DRM-protected entries
   * are skipped; the rest are video-only, progressive, or (audio only or no
   * streams at all) skipped as well.
   */
  function Classify(v: Value): (k: Option<StreamKind>)
    ensures k.Some? ==> v.Dict? && Truthy(Get(v.fields, "format_id")) && !Truthy(Get(v.fields, "has_drm"))
    ensures k.Some? ==> HasCodec(v.fields, "vcodec")
    ensures k == Some(VideoOnly) <==> v.Dict? && Truthy(Get(v.fields, "format_id")) && !Truthy(Get(v.fields, "has_drm"))
                                      && HasCodec(v.fields, "vcodec") && !HasCodec(v.fields, "acodec")
    ensures k == Some(Progressive) <==> v.Dict? && Truthy(Get(v.fields, "format_id")) && !Truthy(Get(v.fields, "has_drm"))
                                        && HasCodec(v.fields, "vcodec") && HasCodec(v.fields, "acodec")
  {
    if !v.Dict? then None
    else if !Truthy(Get(v.fields, "format_id")) then None
    else if Truthy(Get(v.fields, "has_drm")) then None
    else
      var hasVideo := HasCodec(v.fields, "vcodec");
      var hasAudio := HasCodec(v.fields, "acodec");
      if hasVideo && !hasAudio then Some(VideoOnly)
      else if hasVideo && hasAudio then Some(Progressive)
      else None
  }

  /** The entries of one kind, in list order. */
  function OfKind(items: seq<Value>, kind: StreamKind): seq<Fields> {
    if items == [] then []
    else
      var init := OfKind(items[..|items| - 1], kind);
      var last := items[|items| - 1];
      if Classify(last) == Some(kind) then init + [last.fields] else init
  }

  lemma OfKindSnoc(items: seq<Value>, k: nat, kind: StreamKind)
    requires k < |items|
    ensures OfKind(items[..k + 1], kind)
      == if Classify(items[k]) == Some(kind) then OfKind(items[..k], kind) + [items[k].fields] else OfKind(items[..k], kind)
  {
    assert items[..k + 1][..k] == items[..k];
  }

  /** A descriptor is kept under a kind exactly when some entry of that kind holds it. */
  lemma {:induction false} OfKindElements(items: seq<Value>, kind: StreamKind)
    ensures forall f :: f in OfKind(items, kind) <==> exists i :: 0 <= i < |items| && items[i] == Dict(f) && Classify(items[i]) == Some(kind)
  {
    if items != [] {
      var init := items[..|items| - 1];
      OfKindElements(init, kind);
      forall f
        ensures f in OfKind(items, kind) <==> exists i :: 0 <= i < |items| && items[i] == Dict(f) && Classify(items[i]) == Some(kind)
      {
        if f in OfKind(items, kind) && f !in OfKind(init, kind) {
          assert items[|items| - 1] == Dict(f);
        }
        if exists i :: 0 <= i < |items| && items[i] == Dict(f) && Classify(items[i]) == Some(kind) {
          var i :| 0 <= i < |items| && items[i] == Dict(f) && Classify(items[i]) == Some(kind);
          if i < |init| {
            assert init[i] == items[i];
          }
        }
      }
    }
  }

  /** No descriptor is kept under a kind exactly when no entry is of that kind. */
  lemma {:induction false} OfKindEmpty(items: seq<Value>, kind: StreamKind)
    ensures OfKind(items, kind) == [] <==> forall k :: 0 <= k < |items| ==> Classify(items[k]) != Some(kind)
  {
    if items != [] {
      var init := items[..|items| - 1];
      OfKindEmpty(init, kind);
      if OfKind(items, kind) == [] {
        forall k | 0 <= k < |items|
          ensures Classify(items[k]) != Some(kind)
        {
          if k < |init| {
            assert items[k] == init[k];
          }
        }
      }
    }
  }

  // ---------------------------------------------------------------------------
  // The best descriptor of a kind.

  /** The sort keys of the descriptors, in order. */
  function Keys(fs: seq<Fields>): (ks: seq<SortKey>)
    ensures |ks| == |fs| && forall i :: 0 <= i < |fs| ==> ks[i] == Key(fs[i])
  {
    seq(|fs|, i requires 0 <= i < |fs| => Key(fs[i]))
  }

  /** The position of the first greatest key. */
  function BestKeyIndex(ks: seq<SortKey>): (r: nat)
    requires ks != []
    ensures r < |ks|
  {
    if |ks| == 1 then 0
    else
      var i := BestKeyIndex(ks[..|ks| - 1]);
      if KeyLess(ks[i], ks[|ks| - 1]) then |ks| - 1 else i
  }

  /** One more key of the scan. */
  lemma BestKeyIndexSnoc(ks: seq<SortKey>, k: nat)
    requires 0 < k < |ks|
    ensures var i := BestKeyIndex(ks[..k]);
      BestKeyIndex(ks[..k + 1]) == if KeyLess(ks[i], ks[k]) then k else i
  {
    assert ks[..k + 1][..k] == ks[..k];
  }

  /** No key is greater, and every earlier key is smaller. */
  lemma {:induction false} BestKeyIndexIsFirstMaximum(ks: seq<SortKey>)
    requires ks != []
    ensures forall j :: 0 <= j < |ks| ==> !KeyLess(ks[BestKeyIndex(ks)], ks[j])
    ensures forall j :: 0 <= j < BestKeyIndex(ks) ==> KeyLess(ks[j], ks[BestKeyIndex(ks)])
  {
    if |ks| > 1 {
      var init := ks[..|ks| - 1];
      var i := BestKeyIndex(init);
      var b := BestKeyIndex(ks);
      BestKeyIndexIsFirstMaximum(init);
      var last := ks[|ks| - 1];
      forall j | 0 <= j < |ks|
        ensures !KeyLess(ks[b], ks[j])
      {
        if j < |init| {
          assert ks[j] == init[j];
          if KeyLess(init[i], last) && KeyLess(last, ks[j]) {
            KeyLessTransitive(init[i], last, ks[j]);
          }
        }
        KeyLessTotal(ks[b], ks[j]);
      }
      forall j | 0 <= j < b
        ensures KeyLess(ks[j], ks[b])
      {
        assert ks[j] == init[j];
        if b == |ks| - 1 {
          KeyLessTotal(init[j], init[i]);
          if KeyLess(init[j], init[i]) {
            KeyLessTransitive(init[j], init[i], last);
          }
        }
      }
    }
  }

  /** The position of the first descriptor with the greatest key. */
  function BestIndex(fs: seq<Fields>): (r: nat)
    requires fs != []
    ensures r < |fs|
  {
    BestKeyIndex(Keys(fs))
  }

  /** One more descriptor of the scan: it wins only with a strictly greater key. */
  lemma BestIndexSnoc(fs: seq<Fields>)
    requires |fs| > 1
    ensures var i := BestIndex(fs[..|fs| - 1]);
      BestIndex(fs) == if KeyLess(Key(fs[i]), Key(fs[|fs| - 1])) then |fs| - 1 else i
  {
    assert Keys(fs)[..|fs| - 1] == Keys(fs[..|fs| - 1]);
  }

  /** No descriptor has a greater key, and every earlier one has a smaller key. */
  lemma BestIndexIsFirstMaximum(fs: seq<Fields>)
    requires fs != []
    ensures forall j :: 0 <= j < |fs| ==> !KeyLess(Key(fs[BestIndex(fs)]), Key(fs[j]))
    ensures forall j :: 0 <= j < BestIndex(fs) ==> KeyLess(Key(fs[j]), Key(fs[BestIndex(fs)]))
  {
    BestKeyIndexIsFirstMaximum(Keys(fs));
  }

  /**
   * `sorted(fs, key=_stream_sort_key, reverse=True)`: a stable sort by
   * descending key, written as insertion of each descriptor after every one
   * whose key is not smaller.
   */
  function SortDescending(fs: seq<Fields>): (r: seq<Fields>)
    ensures |r| == |fs|
  {
    if fs == [] then [] else Insert(SortDescending(fs[..|fs| - 1]), fs[|fs| - 1])
  }

  function Insert(sorted: seq<Fields>, f: Fields): (r: seq<Fields>)
    ensures |r| == |sorted| + 1
  {
    if sorted == [] then [f]
    else if KeyLess(Key(sorted[0]), Key(f)) then [f] + sorted
    else [sorted[0]] + Insert(sorted[1..], f)
  }

  /** The head of the descending sort is the first descriptor with the greatest key. */
  lemma {:induction false} SortedHeadIsBest(fs: seq<Fields>)
    requires fs != []
    ensures SortDescending(fs)[0] == fs[BestIndex(fs)]
  {
    if |fs| > 1 {
      var init := fs[..|fs| - 1];
      SortedHeadIsBest(init);
      BestIndexSnoc(fs);
      assert init[BestIndex(init)] == fs[BestIndex(init)];
    }
  }

  // ---------------------------------------------------------------------------
  // The selection.

  const GenericSelector := "bestvideo*+bestaudio/bestvideo+bestaudio/best"
  const GenericLabel := "generic-best"

  /** `extracted_info.get("formats") or []`, when it is a list. */
  function FormatList(info: Fields): Option<seq<Value>> {
    var v := Or(Get(info, "formats"), List([]));
    if v.List? then Some(v.items) else None
  }

  /** The descriptor `choose_download_format` settles on, with its kind. */
  function Pick(info: Fields): Option<(StreamKind, Fields)> {
    match FormatList(info)
    case None => None
    case Some(items) =>
      var videoOnly := OfKind(items, VideoOnly);
      var progressive := OfKind(items, Progressive);
      if videoOnly != [] then Some((VideoOnly, videoOnly[BestIndex(videoOnly)]))
      else if progressive != [] then Some((Progressive, progressive[BestIndex(progressive)]))
      else None
  }

  /** The selector and label for a picked descriptor. */
  function SelectionFor(kind: StreamKind, best: Fields): (r: (string, string))
    ensures SelectionShape(kind, AsText(Get(best, "format_id")), r)
  {
    var id := AsText(Get(best, "format_id"));
    var height := IntToString(ToInt(Get(best, "height")));
    match kind
    case VideoOnly =>
      var rest := "[acodec!=none]/" + id + "+bestaudio/" + id + "/best";
      StartsWithConcat(id + "+bestaudio", rest);
      StartsWithConcat("video-only ", height + "p");
      ((id + "+bestaudio") + rest, "video-only " + (height + "p"))
    case Progressive =>
      StartsWithConcat("progressive ", height + "p");
      (id, "progressive " + (height + "p"))
  }

  /**
   * A video-only pick asks for its id with the best audio, and a progressive
   * pick for its id alone; the label says which kind it was.
   */
  predicate SelectionShape(kind: StreamKind, id: string, r: (string, string)) {
    match kind
    case VideoOnly => StartsWith(r.0, id + "+bestaudio") && StartsWith(r.1, "video-only ")
    case Progressive => r.0 == id && StartsWith(r.1, "progressive ")
  }

  /** `choose_download_format(extracted_info)`: the selector and its label. */
  function Selection(info: Fields): (r: (string, string))
    ensures var p := Pick(info);
      match p
      case None => r == (GenericSelector, GenericLabel)
      case Some((kind, best)) => SelectionShape(kind, AsText(Get(best, "format_id")), r)
  {
    match Pick(info)
    case None => (GenericSelector, GenericLabel)
    case Some((kind, best)) => SelectionFor(kind, best)
  }

  /** The picked descriptor is one of the entries, has a format id, no DRM, and a video stream. */
  lemma PickIsUsable(info: Fields)
    requires Pick(info).Some?
    ensures var (kind, best) := Pick(info).value;
      exists i :: 0 <= i < |FormatList(info).value| && FormatList(info).value[i] == Dict(best)
        && Classify(Dict(best)) == Some(kind)
    ensures var best := Pick(info).value.1;
      Truthy(Get(best, "format_id")) && !Truthy(Get(best, "has_drm")) && HasCodec(best, "vcodec")
  {
    var items := FormatList(info).value;
    var (kind, best) := Pick(info).value;
    OfKindElements(items, kind);
    var fs := OfKind(items, kind);
    assert best in fs;
    var i :| 0 <= i < |items| && items[i] == Dict(best) && Classify(items[i]) == Some(kind);
  }

  /** A video-only entry is preferred to every progressive one, and beats every other video-only entry. */
  lemma PickPrefersVideoOnly(info: Fields, i: nat)
    requires FormatList(info).Some? && i < |FormatList(info).value|
    requires Classify(FormatList(info).value[i]) == Some(VideoOnly)
    ensures Pick(info).Some? && Pick(info).value.0 == VideoOnly
    ensures !KeyLess(Key(Pick(info).value.1), Key(FormatList(info).value[i].fields))
  {
    var items := FormatList(info).value;
    var fs := OfKind(items, VideoOnly);
    OfKindElements(items, VideoOnly);
    assert items[i].fields in fs;
    BestIndexIsFirstMaximum(fs);
    var j :| 0 <= j < |fs| && fs[j] == items[i].fields;
  }

  /** With no video-only entry, a progressive entry is taken, and none beats it. */
  lemma PickProgressive(info: Fields, i: nat)
    requires FormatList(info).Some? && i < |FormatList(info).value|
    requires forall k :: 0 <= k < |FormatList(info).value| ==> Classify(FormatList(info).value[k]) != Some(VideoOnly)
    requires Classify(FormatList(info).value[i]) == Some(Progressive)
    ensures Pick(info).Some? && Pick(info).value.0 == Progressive
    ensures !KeyLess(Key(Pick(info).value.1), Key(FormatList(info).value[i].fields))
  {
    var items := FormatList(info).value;
    OfKindEmpty(items, VideoOnly);
    var fs := OfKind(items, Progressive);
    OfKindElements(items, Progressive);
    assert items[i].fields in fs;
    BestIndexIsFirstMaximum(fs);
    var j :| 0 <= j < |fs| && fs[j] == items[i].fields;
  }

  /** The generic chain is chosen exactly when no entry is a usable video stream. */
  lemma SelectionGeneric(info: Fields)
    ensures Selection(info) == (GenericSelector, GenericLabel)
      <==> FormatList(info).None?
           || forall k :: 0 <= k < |FormatList(info).value| ==> Classify(FormatList(info).value[k]).None?
  {
    match FormatList(info)
    case None =>
    case Some(items) =>
      OfKindElements(items, VideoOnly);
      OfKindElements(items, Progressive);
      if OfKind(items, VideoOnly) != [] {
        var f := OfKind(items, VideoOnly)[0];
        assert f in OfKind(items, VideoOnly);
        LabelNotGeneric(VideoOnly, Pick(info).value.1);
      } else if OfKind(items, Progressive) != [] {
        var f := OfKind(items, Progressive)[0];
        assert f in OfKind(items, Progressive);
        LabelNotGeneric(Progressive, Pick(info).value.1);
      }
  }

  lemma LabelNotGeneric(kind: StreamKind, best: Fields)
    ensures SelectionFor(kind, best).1 != GenericLabel
  {
    var l := SelectionFor(kind, best).1;
    assert l[0] != GenericLabel[0];
  }

  // ---------------------------------------------------------------------------
  // The imperative form.

  /** The first loop: sort the usable entries into video-only and progressive. */
  method Partition(items: seq<Value>) returns (videoOnly: seq<Fields>, progressive: seq<Fields>)
    ensures videoOnly == OfKind(items, VideoOnly) && progressive == OfKind(items, Progressive)
  {
    videoOnly, progressive := [], [];
    var k := 0;
    while k < |items|
      invariant 0 <= k <= |items|
      invariant videoOnly == OfKind(items[..k], VideoOnly) && progressive == OfKind(items[..k], Progressive)
    {
      OfKindSnoc(items, k, VideoOnly);
      OfKindSnoc(items, k, Progressive);
      var fmt := items[k];
      if fmt.Dict? && Truthy(Get(fmt.fields, "format_id")) && !Truthy(Get(fmt.fields, "has_drm")) {
        var hasVideo := HasCodec(fmt.fields, "vcodec");
        var hasAudio := HasCodec(fmt.fields, "acodec");
        if hasVideo && !hasAudio {
          videoOnly := videoOnly + [fmt.fields];
        } else if hasVideo && hasAudio {
          progressive := progressive + [fmt.fields];
        }
      }
      k := k + 1;
    }
    assert items[..|items|] == items;
  }

  /** `fs.sort(key=_stream_sort_key, reverse=True); fs[0]`, as a scan for the first greatest key. */
  method Best(fs: seq<Fields>) returns (best: Fields)
    requires fs != []
    ensures best == fs[BestIndex(fs)] && best == SortDescending(fs)[0]
  {
    var i := 0;
    var k := 1;
    while k < |fs|
      invariant 1 <= k <= |fs| && i == BestKeyIndex(Keys(fs)[..k])
    {
      BestKeyIndexSnoc(Keys(fs), k);
      if KeyLess(Key(fs[i]), Key(fs[k])) {
        i := k;
      }
      k := k + 1;
    }
    assert Keys(fs)[..|fs|] == Keys(fs);
    best := fs[i];
    SortedHeadIsBest(fs);
  }

  method ChooseDownloadFormat(info: Fields) returns (selector: string, description: string)
    ensures (selector, description) == Selection(info)
  {
    var formats := Or(Get(info, "formats"), List([]));
    if !formats.List? {
      return GenericSelector, GenericLabel;
    }
    var videoOnly, progressive := Partition(formats.items);
    if videoOnly != [] {
      var best := Best(videoOnly);
      var id := AsText(Get(best, "format_id"));
      var height := ToInt(Get(best, "height"));
      var rest := "[acodec!=none]/" + id + "+bestaudio/" + id + "/best";
      return (id + "+bestaudio") + rest, "video-only " + (IntToString(height) + "p");
    }
    if progressive != [] {
      var best := Best(progressive);
      var id := AsText(Get(best, "format_id"));
      var height := ToInt(Get(best, "height"));
      return id, "progressive " + (IntToString(height) + "p");
    }
    return GenericSelector, GenericLabel;
  }
}
