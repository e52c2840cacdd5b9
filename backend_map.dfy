/**
 The hosted-inference pipeline (backend/map.py): look up the country's bounding
 box, fetch the image records inside it, cut them into batches of 128, send
 every record that has a thumbnail field to the remote predictor, and keep the
 coordinates of the records the predictor answers truthily for.

 The image search, the thumbnail download and the remote predictor are
 parameters: `fetch` maps the `bbox` query text to the response's `data` list
 (or raises), `download` maps a URL to its body (or raises), `predict` maps a
 body to the truthiness of the predictor's answer (or raises).
 */
module BackendMap {

  import opened Common
  import opened CountryLookup
  import opened Chunking

  const BatchSize := 128

  /** What `read_csv` returns when no row names the country. */
  const MissingBoundingBox := "0,0,0,0"

  /** What `read_csv` returns, or the exception it raises, for the table `rows`. */
  function BoundingBox(rows: seq<seq<string>>, country: string): Result<string> {
    match Scan(rows, country)
    case Found(k) => Ok(BoundingBoxText(rows[k]))
    case NotFound => Ok(MissingBoundingBox)
    case EmptyRow(_) => Err(IndexError)
    case ShortRow(_) => Err(ValueError)
  }

  /** `read_csv`: the first row naming the country gives fields 1 to 4, comma-joined. */
  method ReadCsv(rows: seq<seq<string>>, country: string) returns (r: Result<string>)
    ensures r == BoundingBox(rows, country)
  {
    for i := 0 to |rows|
      invariant PassedOver(rows, country, 0, i)
    {
      var row := rows[i];
      if |row| == 0 {
        ScanSkips(rows, country, 0, i);
        return Err(IndexError);
      }
      if row[0] == country {
        ScanSkips(rows, country, 0, i);
        if |row| < RowWidth {
          return Err(ValueError);
        }
        var longmin, latmin, longmax, latmax := row[1], row[2], row[3], row[4];
        return Ok(longmin + "," + latmin + "," + longmax + "," + latmax);
      }
    }
    ScanSkips(rows, country, 0, |rows|);
    return Ok(MissingBoundingBox);
  }

  /** The predictor found something in the image behind `url`, and nothing raised on the way. */
  ghost predicate Detects(url: Option<string>, download: string -> Call<Bytes>, predict: Bytes -> Call<bool>) {
    url.Some? && download(url.value).Returned? && predict(download(url.value).value) == Returned(true)
  }

  /**
   `send_to_inference`: the coordinates back when the predictor's answer is
   truthy; `None` when it is falsy or when anything raises. A JSON null URL
   makes the download raise.
   */
  function SendToInference(url: Option<string>, coords: Coordinate,
                           download: string -> Call<Bytes>, predict: Bytes -> Call<bool>): (r: Option<Coordinate>)
    ensures r.Some? <==> Detects(url, download, predict)
    ensures r.Some? ==> r.value == coords
  {
    match url
    case None => None
    case Some(u) =>
      match download(u)
      case Raised => None
      case Returned(body) =>
        match predict(body)
        case Raised => None
        case Returned(truthy) => if truthy then Some(coords) else None
  }

  /** `'thumb_2048_url' in item`: the record is submitted for inference. */
  predicate Submitted(item: Item) {
    item.thumb != Absent
  }

  /** A submitted record whose `item['geometry']['coordinates']` raises `KeyError`. */
  predicate Malformed(item: Item) {
    Submitted(item) && item.coordinates.None?
  }

  /** The arguments of one `executor.submit(send_to_inference, ...)`. */
  datatype Task = Task(url: Option<string>, coords: Coordinate)

  function TaskOf(item: Item): Task
    requires Submitted(item) && item.coordinates.Some?
  {
    Task(if item.thumb.Url? then Some(item.thumb.url) else None, item.coordinates.value)
  }

  /** The records of `batch` that carry the key `thumb_2048_url`, in order. */
  function Submissions(batch: seq<Item>): (s: seq<Item>)
    ensures |s| <= |batch|
    ensures forall x :: x in s <==> x in batch && Submitted(x)
  {
    if batch == [] then []
    else
      assert forall x :: x in batch <==> x == batch[0] || x in batch[1..];
      (if Submitted(batch[0]) then [batch[0]] else []) + Submissions(batch[1..])
  }

  /** The `futures` comprehension: one task per submitted record, in order; a malformed record raises. */
  function Submit(batch: seq<Item>): (r: Result<seq<Task>>)
    ensures r.Err? <==> exists x :: x in batch && Malformed(x)
    ensures r.Err? ==> r.error == KeyError
    ensures r.Ok? ==> |r.value| <= |batch|
    ensures r.Ok? ==> forall t :: t in r.value <==>
      exists x :: x in batch && Submitted(x) && x.coordinates.Some? && t == TaskOf(x)
  {
    if batch == [] then Ok([])
    else
      var item := batch[0];
      assert forall x :: x in batch <==> x == item || x in batch[1..];
      if !Submitted(item) then
        Submit(batch[1..])
      else if item.coordinates.None? then assert item in batch && Malformed(item); Err(KeyError)
      else
        match Submit(batch[1..])
        case Err(e) => Err(e)
        case Ok(tasks) => Ok([TaskOf(item)] + tasks)
  }

  /** The tasks follow the submitted records one for one, in batch order. */
  lemma {:induction false} SubmitInOrder(batch: seq<Item>)
    requires Submit(batch).Ok?
    ensures |Submit(batch).value| == |Submissions(batch)|
    ensures forall k :: 0 <= k < |Submissions(batch)| ==>
      Submissions(batch)[k].coordinates.Some? && Submit(batch).value[k] == TaskOf(Submissions(batch)[k])
  {
    if batch != [] {
      SubmitInOrder(batch[1..]);
      var item := batch[0];
      if Submitted(item) {
        var rest := Submit(batch[1..]).value;
        assert Submit(batch).value == [TaskOf(item)] + rest;
        assert Submissions(batch) == [item] + Submissions(batch[1..]);
      } else {
        assert Submissions(batch) == Submissions(batch[1..]);
      }
    }
  }

  /** The record is submitted, carries truthy coordinates, and the predictor detects something. */
  ghost predicate Kept(item: Item, download: string -> Call<Bytes>, predict: Bytes -> Call<bool>) {
    Submitted(item) && item.coordinates.Some? && Truthy(item.coordinates.value)
    && Detects(if item.thumb.Url? then Some(item.thumb.url) else None, download, predict)
  }

  /** The coordinates a run keeps, record by record in input order. */
  ghost function Detections(items: seq<Item>, download: string -> Call<Bytes>, predict: Bytes -> Call<bool>): (r: seq<Coordinate>)
    ensures |r| <= |items|
    ensures forall c :: c in r <==>
      exists x :: x in items && Kept(x, download, predict) && x.coordinates.value == c
  {
    if items == [] then []
    else
      var x := items[0];
      assert forall y :: y in items <==> y == x || y in items[1..];
      (if Kept(x, download, predict) then [x.coordinates.value] else []) + Detections(items[1..], download, predict)
  }

  lemma {:induction false} DetectionsAppend(a: seq<Item>, b: seq<Item>, download: string -> Call<Bytes>, predict: Bytes -> Call<bool>)
    ensures Detections(a + b, download, predict) == Detections(a, download, predict) + Detections(b, download, predict)
  {
    if a != [] {
      assert (a + b)[0] == a[0];
      assert (a + b)[1..] == a[1..] + b;
      DetectionsAppend(a[1..], b, download, predict);
    } else {
      assert a + b == b;
    }
  }

  /** What one completed future contributes to `filtered_coords`. */
  function Hit(t: Task, download: string -> Call<Bytes>, predict: Bytes -> Call<bool>): seq<Coordinate> {
    var coords := SendToInference(t.url, t.coords, download, predict);
    if coords.Some? && Truthy(coords.value) then [coords.value] else []
  }

  /** The contribution of each future of a batch, in submission order. */
  function Contributions(tasks: seq<Task>, download: string -> Call<Bytes>, predict: Bytes -> Call<bool>): (parts: seq<seq<Coordinate>>)
    ensures |parts| == |tasks|
  {
    seq(|tasks|, i requires 0 <= i < |tasks| => Hit(tasks[i], download, predict))
  }

  /** A batch contributes exactly the coordinates of its records that are kept. */
  lemma {:induction false} SubmitHits(batch: seq<Item>, tasks: seq<Task>,
                                      download: string -> Call<Bytes>, predict: Bytes -> Call<bool>)
    requires Submit(batch) == Ok(tasks)
    ensures Flatten(Contributions(tasks, download, predict)) == Detections(batch, download, predict)
  {
    if batch != [] {
      var item := batch[0];
      if !Submitted(item) {
        SubmitHits(batch[1..], tasks, download, predict);
      } else {
        var rest := Submit(batch[1..]).value;
        assert tasks == [TaskOf(item)] + rest;
        assert tasks[1..] == rest;
        assert Contributions(tasks, download, predict)[1..] == Contributions(rest, download, predict);
        SubmitHits(batch[1..], rest, download, predict);
      }
    }
  }

  /** The parts whose index is in `done`, from index `from` on, concatenated. */
  ghost function Picked<T>(parts: seq<seq<T>>, done: set<nat>, from: nat): seq<T>
    requires from <= |parts|
    decreases |parts| - from
  {
    if from == |parts| then []
    else (if from in done then parts[from] else []) + Picked(parts, done, from + 1)
  }

  lemma {:induction false} PickedNone<T>(parts: seq<seq<T>>, from: nat)
    requires from <= |parts|
    ensures Picked(parts, {}, from) == []
    decreases |parts| - from
  {
    if from < |parts| {
      PickedNone(parts, from + 1);
    }
  }

  /** Completing one more future, whichever it is, adds exactly its part. */
  lemma {:induction false} PickedAdd<T>(parts: seq<seq<T>>, done: set<nat>, t: nat, from: nat)
    requires from <= t < |parts| && t !in done
    ensures multiset(Picked(parts, done + {t}, from)) == multiset(Picked(parts, done, from)) + multiset(parts[t])
    decreases |parts| - from
  {
    var now := if from in done + {t} then parts[from] else [];
    var was := if from in done then parts[from] else [];
    assert Picked(parts, done + {t}, from) == now + Picked(parts, done + {t}, from + 1);
    assert Picked(parts, done, from) == was + Picked(parts, done, from + 1);
    if from == t {
      PickedSame(parts, done, t, from + 1);
      assert now == parts[t] && was == [];
    } else {
      PickedAdd(parts, done, t, from + 1);
      assert now == was;
    }
  }

  /** Parts before `from` do not matter once `t` is behind. */
  lemma {:induction false} PickedSame<T>(parts: seq<seq<T>>, done: set<nat>, t: nat, from: nat)
    requires t < from <= |parts|
    ensures Picked(parts, done + {t}, from) == Picked(parts, done, from)
    decreases |parts| - from
  {
    if from < |parts| {
      PickedSame(parts, done, t, from + 1);
    }
  }

  /** Once every future has completed, all parts are there, in order. */
  lemma {:induction false} PickedAll<T>(parts: seq<seq<T>>, done: set<nat>, from: nat)
    requires from <= |parts|
    requires forall t: nat :: from <= t < |parts| ==> t in done
    ensures Picked(parts, done, from) == Flatten(parts[from..])
    decreases |parts| - from
  {
    if from < |parts| {
      PickedAll(parts, done, from + 1);
      assert parts[from..][1..] == parts[from + 1..];
    }
  }

  /** The indices `0 .. n-1`, the futures of a batch still to complete. */
  function Indices(n: nat): (r: set<nat>)
    ensures forall t: nat :: t in r <==> t < n
  {
    if n == 0 then {} else Indices(n - 1) + {n - 1}
  }

  /**
   The `as_completed` loop over one batch: futures complete in any order, and
   every completed one with truthy coordinates adds them. Only the multiset is determined.
   */
  method CollectCompleted(tasks: seq<Task>, download: string -> Call<Bytes>, predict: Bytes -> Call<bool>)
    returns (found: seq<Coordinate>)
    ensures multiset(found) == multiset(Flatten(Contributions(tasks, download, predict)))
  {
    found := [];
    ghost var parts := Contributions(tasks, download, predict);
    var pending := Indices(|tasks|);
    ghost var done: set<nat> := {};
    PickedNone(parts, 0);
    while pending != {}
      invariant pending !! done
      invariant forall t: nat :: t < |tasks| <==> t in pending || t in done
      invariant multiset(found) == multiset(Picked(parts, done, 0))
      decreases |pending|
    {
      var t :| t in pending;
      var coords := SendToInference(tasks[t].url, tasks[t].coords, download, predict);
      if coords.Some? && Truthy(coords.value) {
        found := found + [coords.value];
      }
      assert parts[t] == Hit(tasks[t], download, predict);
      PickedAdd(parts, done, t, 0);
      pending := pending - {t};
      done := done + {t};
    }
    PickedAll(parts, done, 0);
    assert parts[0..] == parts;
  }

  lemma {:induction false} InFlatten<T>(ss: seq<seq<T>>, k: nat, x: T)
    requires k < |ss| && x in ss[k]
    ensures x in Flatten(ss)
  {
    if k > 0 {
      InFlatten(ss[1..], k - 1, x);
    }
  }

  /**
   `run_inference`. The result holds, as a multiset, exactly the coordinates of
   the records kept; `as_completed` hands back the futures of a batch in any
   order, modelled by picking any pending future next.
   */
  method RunInference(rows: seq<seq<string>>, country: string, fetch: string -> Call<seq<Item>>,
                      download: string -> Call<Bytes>, predict: Bytes -> Call<bool>)
    returns (r: Result<seq<Coordinate>>)
    ensures BoundingBox(rows, country).Err? ==> r == Err(BoundingBox(rows, country).error)
    ensures BoundingBox(rows, country).Ok? && fetch(BoundingBox(rows, country).value).Raised? ==> r == Ok([])
    ensures BoundingBox(rows, country).Ok? && fetch(BoundingBox(rows, country).value).Returned? ==>
      var data := fetch(BoundingBox(rows, country).value).value;
      && (r.Err? <==> exists x :: x in data && Malformed(x))
      && (r.Err? ==> r.error == KeyError)
      && (r.Ok? ==> multiset(r.value) == multiset(Detections(data, download, predict)))
      && (r.Ok? ==> |r.value| <= |data|)
  {
    var bbox := ReadCsv(rows, country);
    if bbox.Err? {
      return Err(bbox.error);
    }
    var res := fetch(bbox.value);
    if res.Raised? {
      return Ok([]);
    }
    var data := res.value;
    var filtered: seq<Coordinate> := [];
    var batches := Chunks(data, BatchSize);
    FlattenChunks(data, BatchSize);
    for b := 0 to |batches|
      invariant forall x :: x in Flatten(batches[..b]) ==> !Malformed(x)
      invariant multiset(filtered) == multiset(Detections(Flatten(batches[..b]), download, predict))
    {
      var batch := batches[b];
      assert batches[..b + 1] == batches[..b] + [batch];
      FlattenAppend(batches[..b], batch);
      DetectionsAppend(Flatten(batches[..b]), batch, download, predict);
      var futures := Submit(batch);
      if futures.Err? {
        var x :| x in batch && Malformed(x);
        InFlatten(batches, b, x);
        return Err(KeyError);
      }
      var found := CollectCompleted(futures.value, download, predict);
      SubmitHits(batch, futures.value, download, predict);
      filtered := filtered + found;
    }
    assert batches[..|batches|] == batches;
    r := Ok(filtered);
    assert |multiset(filtered)| == |filtered|;
  }
}
