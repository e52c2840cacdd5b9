/**
 The local-detector pipeline (backend/yolov5/map.py): look up the country's
 bounding box, fetch the image records inside it, download every thumbnail,
 decode the images into tensors, run the detector over batches of 32 tensors,
 and keep `map_coords[i + j]` for every positive detection `j` of the batch
 that starts at `i`.

 The image search, the download, the image decoder (PIL, resize, tensor
 conversion) and the detector (the network and non-maximum suppression) are
 parameters.
 */
module YoloMap {

  import opened Common
  import opened CountryLookup
  import opened Chunking
  import BackendMap

  const BatchSize := 32

  /** A decoded, resized image as the detector takes it. */
  type Tensor(==, !new)

  /** What decoding an image body does. */
  datatype Decoded =
    | Image(tensor: Tensor)  // decoded, resized and converted
    | Unidentified           // `PIL.UnidentifiedImageError`: the image is skipped
    | Broken                 // any other exception: it escapes `model`

  /** The detections the detector reports for one image: `None`, or a number of boxes. */
  datatype Detection = NoDetection | Boxes(count: nat)

  /** `det is not None and len(det)`. */
  predicate Positive(d: Detection) {
    d.Boxes? && d.count > 0
  }

  // ---------------------------------------------------------------- read_csv

  /** What `read_csv` returns: the comma-joined bounds, or the tuple `(0, 0, 0, 0)`. */
  datatype BoundingBoxValue = Text(text: string) | ZeroTuple

  /** What `read_csv` returns, or the exception it raises, for the table `rows`. */
  function BoundingBox(rows: seq<seq<string>>, country: string): Result<BoundingBoxValue> {
    match Scan(rows, country)
    case Found(k) => Ok(Text(BoundingBoxText(rows[k])))
    case NotFound => Ok(ZeroTuple)
    case EmptyRow(_) => Err(IndexError)
    case ShortRow(_) => Err(IndexError)
  }

  /** `read_csv`: the first row naming the country gives fields 1 to 4, comma-joined; no match gives a tuple. */
  method ReadCsv(rows: seq<seq<string>>, country: string) returns (r: Result<BoundingBoxValue>)
    ensures r == BoundingBox(rows, country)
  {
    for i := 0 to |rows|
      invariant PassedOver(rows, country, 0, i)
    {
      var row := rows[i];
      if |row| == 0 {
        ScanSkips(rows, country, 0, i);
        return Err(IndexError);
      }
      if row[0] == country {
        ScanSkips(rows, country, 0, i);
        if |row| < RowWidth {
          return Err(IndexError);
        }
        var longmin := row[1];
        var latmin := row[2];
        var longmax := row[3];
        var latmax := row[4];
        return Ok(Text(longmin + "," + latmin + "," + longmax + "," + latmax));
      }
    }
    ScanSkips(rows, country, 0, |rows|);
    return Ok(ZeroTuple);
  }

  /** How the f-string that builds the request URL renders the value. */
  function QueryText(v: BoundingBoxValue): string {
    match v
    case Text(t) => t
    case ZeroTuple => "(0, 0, 0, 0)"
  }

  /**
   The two `read_csv` variants send the same `bbox` text when a row matches,
   raise on the same tables, and send different texts when no row matches.
   */
  lemma ReadCsvVariants(rows: seq<seq<string>>, country: string)
    ensures BoundingBox(rows, country).Err? <==> BackendMap.BoundingBox(rows, country).Err?
    ensures Scan(rows, country).Found? ==>
      QueryText(BoundingBox(rows, country).value) == BackendMap.BoundingBox(rows, country).value
    ensures Scan(rows, country).NotFound? ==>
      BackendMap.BoundingBox(rows, country).value == "0,0,0,0"
      && QueryText(BoundingBox(rows, country).value) == "(0, 0, 0, 0)"
  {
  }

  // ---------------------------------------------------------------- get_img and the download loop

  /**
   `get_img`: the body and the coordinates when the record has a URL, its
   coordinates and a download that did not raise; `None` otherwise.
   */
  function GetImg(item: Item, download: string -> Call<Bytes>): (r: Option<(Bytes, Coordinate)>)
    ensures r.Some? <==> item.thumb.Url? && item.coordinates.Some? && download(item.thumb.url).Returned?
    ensures r.Some? ==> r.value == (download(item.thumb.url).value, item.coordinates.value)
  {
    match item.thumb
    case Absent => None
    case Null => None
    case Url(u) =>
      match item.coordinates
      case None => None
      case Some(coords) =>
        match download(u)
        case Raised => None
        case Returned(body) => Some((body, coords))
  }

  /** The non-`None` results, in the order of `results`. */
  function Present<T(!new)>(results: seq<Option<T>>): (r: seq<T>)
    ensures |r| <= |results|
    ensures forall x :: x in r <==> Some(x) in results
  {
    if results == [] then []
    else
      assert forall y :: y in results <==> y == results[0] || y in results[1..];
      (if results[0].Some? then [results[0].value] else []) + Present(results[1..])
  }

  /** The collection loop: `image_paths` and `map_coords` are the two halves of the non-`None` results. */
  method CollectDownloads(results: seq<Option<(Bytes, Coordinate)>>)
    returns (imagePaths: seq<Bytes>, mapCoords: seq<Coordinate>)
    ensures |imagePaths| == |mapCoords| == |Present(results)|
    ensures forall k :: 0 <= k < |imagePaths| ==>
      (imagePaths[k], mapCoords[k]) == Present(results)[k]
  {
    imagePaths, mapCoords := [], [];
    for i := 0 to |results|
      invariant |imagePaths| == |mapCoords| == |Present(results[..i])|
      invariant forall k :: 0 <= k < |imagePaths| ==> (imagePaths[k], mapCoords[k]) == Present(results[..i])[k]
    {
      PresentAppend(results[..i], results[i]);
      assert results[..i + 1] == results[..i] + [results[i]];
      var result := results[i];
      if result.None? {
        continue;
      }
      var (imgData, coords) := result.value;
      imagePaths := imagePaths + [imgData];
      mapCoords := mapCoords + [coords];
    }
    assert results[..|results|] == results;
  }

  lemma {:induction false} PresentAppend<T(!new)>(results: seq<Option<T>>, last: Option<T>)
    ensures Present(results + [last]) == Present(results) + (if last.Some? then [last.value] else [])
  {
    if results == [] {
      assert [last][1..] == [];
    } else {
      assert (results + [last])[1..] == results[1..] + [last];
      PresentAppend(results[1..], last);
    }
  }

  // ---------------------------------------------------------------- index selections

  /** The indices `k < n` at which `flags` holds, in increasing order. */
  function Where(flags: seq<bool>, n: nat): (idx: seq<nat>)
    requires n <= |flags|
    ensures |idx| <= n
    ensures forall p :: 0 <= p < |idx| ==> idx[p] < n && flags[idx[p]]
  {
    if n == 0 then [] else Where(flags, n - 1) + (if flags[n - 1] then [n - 1] else [])
  }

  /** The selected indices increase, and every index below `n` whose flag holds is selected. */
  lemma {:induction false} WhereOrdered(flags: seq<bool>, n: nat)
    requires n <= |flags|
    ensures forall p, q :: 0 <= p < q < |Where(flags, n)| ==> Where(flags, n)[p] < Where(flags, n)[q]
    ensures forall k :: 0 <= k < n ==> (k in Where(flags, n) <==> flags[k])
  {
    if n > 0 {
      WhereOrdered(flags, n - 1);
    }
  }

  /** Only the flags below `n` matter. */
  lemma {:induction false} WherePrefix(a: seq<bool>, b: seq<bool>, n: nat)
    requires n <= |a| && n <= |b|
    requires forall k :: 0 <= k < n ==> a[k] == b[k]
    ensures Where(a, n) == Where(b, n)
  {
    if n > 0 {
      WherePrefix(a, b, n - 1);
    }
  }

  /** Every index below `n` is selected iff every flag below `n` holds. */
  lemma {:induction false} WhereAll(flags: seq<bool>, n: nat)
    requires n <= |flags|
    ensures |Where(flags, n)| == n <==> forall k :: 0 <= k < n ==> flags[k]
  {
    if n > 0 {
      WhereAll(flags, n - 1);
    }
  }

  /**
   The `p`-th selected index is at least `p`, and equals `p` exactly when no
   flag below it fails: one failing flag shifts every later position.
   */
  lemma {:induction false} WhereShift(flags: seq<bool>, n: nat, p: nat)
    requires n <= |flags| && p < |Where(flags, n)|
    ensures p <= Where(flags, n)[p]
    ensures Where(flags, n)[p] == p <==> forall k :: 0 <= k < Where(flags, n)[p] ==> flags[k]
  {
    var prev := Where(flags, n - 1);
    if p < |prev| {
      WhereShift(flags, n - 1, p);
    } else {
      assert Where(flags, n)[p] == n - 1 && p == |prev|;
      WhereAll(flags, n - 1);
    }
  }

  /** `[xs[k] for k in idx]`. */
  function Pick<T>(xs: seq<T>, idx: seq<nat>): (r: seq<T>)
    requires forall p :: 0 <= p < |idx| ==> idx[p] < |xs|
    ensures |r| == |idx|
    ensures forall p :: 0 <= p < |idx| ==> r[p] == xs[idx[p]]
  {
    seq(|idx|, p requires 0 <= p < |idx| => xs[idx[p]])
  }

  lemma PickAppend<T>(xs: seq<T>, idx: seq<nat>, k: nat)
    requires forall p :: 0 <= p < |idx| ==> idx[p] < |xs|
    requires k < |xs|
    ensures Pick(xs, idx + [k]) == Pick(xs, idx) + [xs[k]]
  {
  }

  /** Picking below `|xs|` does not look at what follows `xs`. */
  lemma PickPrefix<T>(xs: seq<T>, ys: seq<T>, idx: seq<nat>)
    requires forall p :: 0 <= p < |idx| ==> idx[p] < |xs|
    ensures Pick(xs + ys, idx) == Pick(xs, idx)
  {
  }

  lemma PickGrow(sv: seq<nat>, d: seq<nat>, m: nat, keep: bool)
    requires forall p :: 0 <= p < |d| ==> d[p] < |sv|
    ensures Pick(sv + [m], d + (if keep then [|sv|] else [])) == Pick(sv, d) + (if keep then [m] else [])
  {
    PickPrefix(sv, [m], d);
    if keep {
      PickAppend(sv + [m], d, |sv|);
    }
  }

  /** Selecting `b` among the positions selected by `a` selects `a && b`. */
  lemma {:induction false} WhereCompose(a: seq<bool>, b: seq<bool>, ab: seq<bool>, bb: seq<bool>, n: nat)
    requires n <= |a| && n <= |b| && n <= |ab|
    requires forall k :: 0 <= k < n ==> ab[k] == (a[k] && b[k])
    requires |bb| == |Where(a, n)|
    requires forall p :: 0 <= p < |bb| ==> bb[p] == b[Where(a, n)[p]]
    ensures Pick(Where(a, n), Where(bb, |bb|)) == Where(ab, n)
    decreases n
  {
    if n > 0 {
      var m := n - 1;
      var sv := Where(a, m);
      var bb' := bb[..|sv|];
      assert Where(a, n) == sv + (if a[m] then [m] else []);
      forall p | 0 <= p < |bb'| ensures bb'[p] == b[sv[p]] {
        assert Where(a, n)[p] == sv[p];
      }
      WhereCompose(a, b, ab, bb', m);
      WherePrefix(bb, bb', |sv|);
      var d := Where(bb, |sv|);
      assert Pick(sv, d) == Where(ab, m);
      assert Where(ab, n) == Where(ab, m) + (if ab[m] then [m] else []);
      if a[m] {
        assert bb[|sv|] == b[m];
        assert Where(bb, |bb|) == d + (if b[m] then [|sv|] else []);
        PickGrow(sv, d, m, b[m]);
      } else {
        assert bb' == bb;
      }
    }
  }

  // ---------------------------------------------------------------- tensors and detections

  /** Which downloaded images decode. */
  function Decodable(images: seq<Bytes>, decode: Bytes -> Decoded): (flags: seq<bool>)
    ensures |flags| == |images|
    ensures forall k :: 0 <= k < |images| ==> flags[k] == decode(images[k]).Image?
  {
    seq(|images|, k requires 0 <= k < |images| => decode(images[k]).Image?)
  }

  /** The tensors of the images at the positions `sv`. */
  function TensorsAt(images: seq<Bytes>, decode: Bytes -> Decoded, sv: seq<nat>): (ts: seq<Tensor>)
    requires forall p :: 0 <= p < |sv| ==> sv[p] < |images| && decode(images[sv[p]]).Image?
    ensures |ts| == |sv|
  {
    seq(|sv|, p requires 0 <= p < |sv| => decode(images[sv[p]]).tensor)
  }

  /** `img_tensors`: one tensor per image that decodes, in order. */
  function Tensors(images: seq<Bytes>, decode: Bytes -> Decoded): seq<Tensor> {
    TensorsAt(images, decode, Where(Decodable(images, decode), |images|))
  }

  /** The tensor loop. `origin[p]` is the position in `image_paths` of the image tensor `p` came from. */
  method BuildTensors(imagePaths: seq<Bytes>, decode: Bytes -> Decoded)
    returns (r: Result<seq<Tensor>>, ghost origin: seq<nat>)
    ensures r.Err? <==> exists k :: 0 <= k < |imagePaths| && decode(imagePaths[k]).Broken?
    ensures r.Err? ==> r.error == ImageError
    ensures r.Ok? ==> origin == Where(Decodable(imagePaths, decode), |imagePaths|)
    ensures r.Ok? ==> r.value == Tensors(imagePaths, decode)
  {
    ghost var flags := Decodable(imagePaths, decode);
    var imgTensors: seq<Tensor> := [];
    origin := [];
    for i := 0 to |imagePaths|
      invariant origin == Where(flags, i)
      invariant imgTensors == TensorsAt(imagePaths, decode, origin)
      invariant forall k :: 0 <= k < i ==> !decode(imagePaths[k]).Broken?
    {
      match decode(imagePaths[i])
      case Broken =>
        return Err(ImageError), origin;
      case Unidentified =>
      case Image(imgTensor) =>
        imgTensors := imgTensors + [imgTensor];
        origin := origin + [i];
    }
    r := Ok(imgTensors);
  }

  /** Which tensors the detector reports a positive detection for. */
  function Positives(tensors: seq<Tensor>, detect: Tensor -> Detection): (flags: seq<bool>)
    ensures |flags| == |tensors|
  {
    seq(|tensors|, k requires 0 <= k < |tensors| => Positive(detect(tensors[k])))
  }

  /**
   The batch loop: for `i` in `range(0, len(img_tensors), 32)` and `j` over the
   detections of `img_tensors[i:i+32]`, `map_coords[i + j]` is kept iff
   detection `j` is positive. The result is `map_coords` at the increasing
   positions of the positive tensors.
   */
  method SelectDetections(tensors: seq<Tensor>, mapCoords: seq<Coordinate>, detect: Tensor -> Detection)
    returns (filtered: seq<Coordinate>)
    requires |tensors| <= |mapCoords|
    ensures filtered == Pick(mapCoords, Where(Positives(tensors, detect), |tensors|))
    ensures |filtered| <= |tensors|
  {
    ghost var flags := Positives(tensors, detect);
    filtered := [];
    var i := 0;
    while i < |tensors|
      invariant 0 <= i && i % BatchSize == 0
      invariant filtered == Pick(mapCoords, Where(flags, Min(i, |tensors|)))
    {
      var batch := tensors[i..Min(i + BatchSize, |tensors|)];
      BatchIsChunk(tensors, i);
      assert batch == Chunks(tensors, BatchSize)[i / BatchSize];
      assert i + |batch| == Min(i + BatchSize, |tensors|);
      for j := 0 to |batch|
        invariant filtered == Pick(mapCoords, Where(flags, i + j))
      {
        var det := detect(batch[j]);
        assert batch[j] == tensors[i + j] && flags[i + j] == Positive(det);
        SelectStep(flags, mapCoords, i + j);
        if Positive(det) {
          filtered := filtered + [mapCoords[i + j]];
        }
      }
      i := i + BatchSize;
    }
  }

  /**
   The slice the batch loop cuts at `i` is chunk `i / 32` of the chunks of 32.
   `FlattenChunks` states that these chunks cover every index once, in order.
   */
  lemma BatchIsChunk<T>(tensors: seq<T>, i: nat)
    requires i < |tensors| && i % BatchSize == 0
    ensures i / BatchSize < |Chunks(tensors, BatchSize)|
    ensures tensors[i..Min(i + BatchSize, |tensors|)] == Chunks(tensors, BatchSize)[i / BatchSize]
  {
    var k := i / BatchSize;
    assert k * BatchSize == i;
    ChunksShape(tensors, BatchSize);
    ChunkAt(tensors, BatchSize, k);
  }

  /** One more index: its element is appended iff its flag holds. */
  lemma SelectStep<T>(flags: seq<bool>, xs: seq<T>, m: nat)
    requires m < |flags| && m < |xs|
    ensures Pick(xs, Where(flags, m + 1)) == Pick(xs, Where(flags, m)) + (if flags[m] then [xs[m]] else [])
  {
    var sel := Where(flags, m);
    assert Where(flags, m + 1) == sel + (if flags[m] then [m] else []);
    if flags[m] {
      assert Pick(xs, sel + [m]) == Pick(xs, sel) + [xs[m]];
    }
  }

  // ---------------------------------------------------------------- what the pipeline keeps

  /** The coordinates `model` keeps: `map_coords` at the positions of the positive tensors. */
  function AsWrittenSelection(images: seq<Bytes>, coords: seq<Coordinate>,
                              decode: Bytes -> Decoded, detect: Tensor -> Detection): seq<Coordinate>
    requires |images| == |coords|
  {
    var ts := Tensors(images, decode);
    Pick(coords, Where(Positives(ts, detect), |ts|))
  }

  /** Which downloaded images decode and get a positive detection. */
  function Detected(images: seq<Bytes>, decode: Bytes -> Decoded, detect: Tensor -> Detection): (flags: seq<bool>)
    ensures |flags| == |images|
  {
    seq(|images|, k requires 0 <= k < |images| =>
      decode(images[k]).Image? && Positive(detect(decode(images[k]).tensor)))
  }

  /** The evident intent: the coordinates of exactly the images with a positive detection, in order. */
  function IntendedSelection(images: seq<Bytes>, coords: seq<Coordinate>,
                             decode: Bytes -> Decoded, detect: Tensor -> Detection): seq<Coordinate>
    requires |images| == |coords|
  {
    Pick(coords, Where(Detected(images, decode, detect), |images|))
  }

  /** The tensor at position `p` comes from image `p` for every `p` iff no image was skipped. */
  lemma AlignedIffNoSkip(images: seq<Bytes>, decode: Bytes -> Decoded)
    ensures (|Tensors(images, decode)| == |images| &&
             forall p :: 0 <= p < |images| ==> Where(Decodable(images, decode), |images|)[p] == p)
      <==> forall k :: 0 <= k < |images| ==> decode(images[k]).Image?
  {
    var flags := Decodable(images, decode);
    WhereAll(flags, |images|);
    assert |Tensors(images, decode)| == |Where(flags, |images|)|;
    assert (forall k :: 0 <= k < |images| ==> flags[k]) <==> (forall k :: 0 <= k < |images| ==> decode(images[k]).Image?);
    if forall k :: 0 <= k < |images| ==> decode(images[k]).Image? {
      forall p | 0 <= p < |images| ensures Where(flags, |images|)[p] == p {
        WhereShift(flags, |images|, p);
      }
    }
  }

  /** Picking through the decoded positions and then the positive ones selects the intended images. */
  lemma {:induction false} SelectionThroughSurvivors(images: seq<Bytes>, coords: seq<Coordinate>,
                                                    decode: Bytes -> Decoded, detect: Tensor -> Detection)
    requires |images| == |coords|
    ensures var sv := Where(Decodable(images, decode), |images|);
      Pick(Pick(coords, sv), Where(Positives(Tensors(images, decode), detect), |sv|))
        == IntendedSelection(images, coords, decode, detect)
  {
    var a := Decodable(images, decode);
    var sv := Where(a, |images|);
    var ts := Tensors(images, decode);
    var b := seq(|images|, k requires 0 <= k < |images| =>
      decode(images[k]).Image? && Positive(detect(decode(images[k]).tensor)));
    var ab := Detected(images, decode, detect);
    var bb := Positives(ts, detect);
    forall p | 0 <= p < |bb| ensures bb[p] == b[sv[p]] {
      assert ts[p] == decode(images[sv[p]]).tensor;
    }
    WhereCompose(a, b, ab, bb, |images|);
    var d := Where(bb, |bb|);
    assert Pick(Pick(coords, sv), d) == Pick(coords, Pick(sv, d));
  }

  /** With no image skipped, `map_coords[i + j]` is the right coordinate and both selections agree. */
  lemma AlignedWhenNoneSkipped(images: seq<Bytes>, coords: seq<Coordinate>,
                               decode: Bytes -> Decoded, detect: Tensor -> Detection)
    requires |images| == |coords|
    requires forall k :: 0 <= k < |images| ==> decode(images[k]).Image?
    ensures AsWrittenSelection(images, coords, decode, detect) == IntendedSelection(images, coords, decode, detect)
  {
    var flags := Decodable(images, decode);
    var sv := Where(flags, |images|);
    AlignedIffNoSkip(images, decode);
    WhereAll(flags, |images|);
    assert |Pick(coords, sv)| == |coords|;
    forall p | 0 <= p < |coords| ensures Pick(coords, sv)[p] == coords[p] {
      WhereShift(flags, |images|, p);
      assert sv[p] == p;
    }
    assert Pick(coords, sv) == coords;
    SelectionThroughSurvivors(images, coords, decode, detect);
  }

  /**
   One skipped image misaligns the selection: the first image does not decode,
   the second decodes with a detection, and `model` keeps the first image's
   coordinates instead of the second's.
   */
  lemma SkipMisalignsCoordinates(b0: Bytes, b1: Bytes, c0: Coordinate, c1: Coordinate, t1: Tensor,
                                 decode: Bytes -> Decoded, detect: Tensor -> Detection)
    requires decode(b0) == Unidentified && decode(b1) == Image(t1) && Positive(detect(t1))
    requires c0 != c1
    ensures AsWrittenSelection([b0, b1], [c0, c1], decode, detect) == [c0]
    ensures IntendedSelection([b0, b1], [c0, c1], decode, detect) == [c1]
  {
    var images := [b0, b1];
    var flags := Decodable(images, decode);
    assert Where(flags, 1) == [];
    assert Where(flags, 2) == [1];
    var ts := Tensors(images, decode);
    assert ts == [t1];
    var pos := Positives(ts, detect);
    assert Where(pos, 1) == [0];
    var det := Detected(images, decode, detect);
    assert Where(det, 1) == [];
    assert Where(det, 2) == [1];
  }

  // ---------------------------------------------------------------- model

  /** `executor.map(get_img, res)`: one result per record, in the order of the records. */
  function Downloads(data: seq<Item>, download: string -> Call<Bytes>): seq<(Bytes, Coordinate)> {
    Present(seq(|data|, i requires 0 <= i < |data| => GetImg(data[i], download)))
  }

  /** `image_paths`: the first half of each `img_data, coords = result`. */
  function Bodies(ds: seq<(Bytes, Coordinate)>): seq<Bytes> {
    seq(|ds|, k requires 0 <= k < |ds| => ds[k].0)
  }

  /** `map_coords`: the second half of each `img_data, coords = result`. */
  function Places(ds: seq<(Bytes, Coordinate)>): seq<Coordinate> {
    seq(|ds|, k requires 0 <= k < |ds| => ds[k].1)
  }

  /**
   `model`, as written: a failing lookup, a failing search request or an image
   that breaks the decoder raises; otherwise the result is `map_coords` at the
   positions of the positive tensors.
   */
  method Model(rows: seq<seq<string>>, country: string, fetch: string -> Call<seq<Item>>,
               download: string -> Call<Bytes>, decode: Bytes -> Decoded, detect: Tensor -> Detection)
    returns (r: Result<seq<Coordinate>>)
    ensures BoundingBox(rows, country).Err? ==> r == Err(BoundingBox(rows, country).error)
    ensures BoundingBox(rows, country).Ok? && fetch(QueryText(BoundingBox(rows, country).value)).Raised? ==>
      r == Err(RequestError)
    ensures BoundingBox(rows, country).Ok? && fetch(QueryText(BoundingBox(rows, country).value)).Returned? ==>
      var ds := Downloads(fetch(QueryText(BoundingBox(rows, country).value)).value, download);
      && (r.Err? <==> exists k :: 0 <= k < |ds| && decode(ds[k].0).Broken?)
      && (r.Err? ==> r.error == ImageError)
      && (r.Ok? ==> r.value == AsWrittenSelection(Bodies(ds), Places(ds), decode, detect))
  {
    var bbox := ReadCsv(rows, country);
    if bbox.Err? {
      return Err(bbox.error);
    }
    var res := fetch(QueryText(bbox.value));
    if res.Raised? {
      return Err(RequestError);
    }
    var data := res.value;
    var results := seq(|data|, i requires 0 <= i < |data| => GetImg(data[i], download));
    var imagePaths, mapCoords := CollectDownloads(results);
    ghost var ds := Downloads(data, download);
    assert imagePaths == Bodies(ds) && mapCoords == Places(ds);
    var tensors, origin := BuildTensors(imagePaths, decode);
    if tensors.Err? {
      return Err(ImageError);
    }
    var filtered := SelectDetections(tensors.value, mapCoords, detect);
    r := Ok(filtered);
  }

  // ---------------------------------------------------------------- the corrected alignment

  /** The tensor loop with the coordinates of each decoded image appended next to its tensor. */
  method BuildTensorsAligned(imagePaths: seq<Bytes>, mapCoords: seq<Coordinate>, decode: Bytes -> Decoded)
    returns (r: Result<(seq<Tensor>, seq<Coordinate>)>)
    requires |imagePaths| == |mapCoords|
    ensures r.Err? <==> exists k :: 0 <= k < |imagePaths| && decode(imagePaths[k]).Broken?
    ensures r.Err? ==> r.error == ImageError
    ensures r.Ok? ==> r.value.0 == Tensors(imagePaths, decode)
    ensures r.Ok? ==> r.value.1 == Pick(mapCoords, Where(Decodable(imagePaths, decode), |imagePaths|))
  {
    ghost var flags := Decodable(imagePaths, decode);
    var imgTensors: seq<Tensor> := [];
    var validCoords: seq<Coordinate> := [];
    ghost var origin: seq<nat> := [];
    for i := 0 to |imagePaths|
      invariant origin == Where(flags, i)
      invariant imgTensors == TensorsAt(imagePaths, decode, origin)
      invariant validCoords == Pick(mapCoords, origin)
      invariant forall k :: 0 <= k < i ==> !decode(imagePaths[k]).Broken?
    {
      match decode(imagePaths[i])
      case Broken =>
        return Err(ImageError);
      case Unidentified =>
      case Image(imgTensor) =>
        imgTensors := imgTensors + [imgTensor];
        validCoords := validCoords + [mapCoords[i]];
        origin := origin + [i];
    }
    r := Ok((imgTensors, validCoords));
  }

  /** `model` with the coordinates kept next to their tensors: it keeps exactly the images with a detection. */
  method ModelAligned(rows: seq<seq<string>>, country: string, fetch: string -> Call<seq<Item>>,
                      download: string -> Call<Bytes>, decode: Bytes -> Decoded, detect: Tensor -> Detection)
    returns (r: Result<seq<Coordinate>>)
    ensures BoundingBox(rows, country).Err? ==> r == Err(BoundingBox(rows, country).error)
    ensures BoundingBox(rows, country).Ok? && fetch(QueryText(BoundingBox(rows, country).value)).Raised? ==>
      r == Err(RequestError)
    ensures BoundingBox(rows, country).Ok? && fetch(QueryText(BoundingBox(rows, country).value)).Returned? ==>
      var ds := Downloads(fetch(QueryText(BoundingBox(rows, country).value)).value, download);
      && (r.Err? <==> exists k :: 0 <= k < |ds| && decode(ds[k].0).Broken?)
      && (r.Err? ==> r.error == ImageError)
      && (r.Ok? ==> r.value == IntendedSelection(Bodies(ds), Places(ds), decode, detect))
  {
    var bbox := ReadCsv(rows, country);
    if bbox.Err? {
      return Err(bbox.error);
    }
    var res := fetch(QueryText(bbox.value));
    if res.Raised? {
      return Err(RequestError);
    }
    var data := res.value;
    var results := seq(|data|, i requires 0 <= i < |data| => GetImg(data[i], download));
    var imagePaths, mapCoords := CollectDownloads(results);
    ghost var ds := Downloads(data, download);
    assert imagePaths == Bodies(ds) && mapCoords == Places(ds);
    var built := BuildTensorsAligned(imagePaths, mapCoords, decode);
    if built.Err? {
      return Err(ImageError);
    }
    var (tensors, validCoords) := built.value;
    var filtered := SelectDetections(tensors, validCoords, detect);
    SelectionThroughSurvivors(imagePaths, mapCoords, decode, detect);
    r := Ok(filtered);
  }
}
