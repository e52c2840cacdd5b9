# GeoTrainr back end, modelled in Dafny

GeoTrainr looks for road-side objects (bollards) in street-level imagery of a
country. It finds the country's bounding box in a CSV table, asks the image
provider for the images inside that box, runs each image through an object
detector and collects the coordinates of the images with a detection. A
frontend offers those coordinates as a downloadable map document.

This project models the data shaping around the network and model calls:

- `map_file.dfy` (module `MapFile`): `create_file` in `backend/file.py`. It turns
  `[lon, lat]` lists into the map document `{name, customCoordinates: [{lat, lng}]}`.
- `country_lookup.dfy` (module `CountryLookup`): the row search that both
  `read_csv` functions perform. The first row whose first field is the country
  decides the answer, and its fields 1 to 4 are joined with commas.
- `chunking.dfy` (module `Chunking`): cutting a list into consecutive slices of
  a fixed size. Both pipelines do this, and flattening the slices gives the list back.
- `backend_map.dfy` (module `BackendMap`): the hosted-inference pipeline in
  `backend/map.py`. Records are cut into batches of 128. Every record that
  carries the key `thumb_2048_url` is submitted to the remote predictor. The
  coordinates of truthy answers are collected in completion order.
- `yolo_map.dfy` (module `YoloMap`): the local-detector pipeline in
  `backend/yolov5/map.py`. It includes the download collection loop, tensor
  building with the skip of unidentified images, and detection over batches
  of 32 mapped back to `map_coords[i + j]`. The module also holds a corrected
  variant that keeps each coordinate next to its tensor.
- `common.dfy` (module `Common`): shared values. These are the JSON values the
  model carries, the outcome of an outside call, and the exceptions that escape.

Calls outside the model are function-typed parameters:

- the image search `fetch`;
- the thumbnail `download`;
- the remote `predict`;
- the image `decode`;
- the `detect` step that combines the detector with non-maximum suppression.

Each call either returns a value or raises (`Call.Raised`). Image bodies,
tensors and the numbers inside a coordinate are opaque. A coordinate is a list
of such numbers, because `create_file` indexes it (backend/file.py:12) and
`if coords:` tests whether it is empty (backend/map.py:76).

Python's exceptions are modelled as `Result.Err` values, wherever the source
lets them escape:

- a blank CSV line makes `row[0]` raise `IndexError`;
- a matching row with fewer than five fields raises `ValueError` in
  `backend/map.py`, which unpacks `row[1:5]`;
- the same row raises `IndexError` in `backend/yolov5/map.py`, which reads `row[4]`;
- a submitted record without `geometry.coordinates` raises `KeyError` inside
  the list comprehension at `backend/map.py:70-73`, where no `try` catches it;
- an image decoding error other than `UnidentifiedImageError` escapes `model`.

Two behaviours of the code are worth stating plainly:

- A country missing from the table is not an error. The code queries a
  sentinel box instead: `"0,0,0,0"` (backend/map.py:30), or the tuple
  `(0, 0, 0, 0)` (backend/yolov5/map.py:33), which the URL f-string renders as
  `(0, 0, 0, 0)`.
- One record can abort the whole run. A submitted record without coordinates
  raises `KeyError` (backend/map.py:71). A decoding error other than
  `UnidentifiedImageError` escapes `model` (backend/yolov5/map.py:89-92).

## Model

| member | source | states |
|---|---|---|
| Common.Truthy | backend/map.py:76 | Definition of list truthiness behind `if coords:`: a coordinate list is truthy iff it is not empty. `BackendMap.Detections` and `BackendMap.RunInference` state its use. |
| MapFile.CreateFile | backend/file.py:5-13 | The document is named "GeoTrainr Map" and has one entry per input coordinate, in input order. An empty input gives an empty list. Entry `i` has `lat = coordinates[i][1]` and `lng = coordinates[i][0]`, and reading it back as `[lng, lat]` gives exactly the first two elements of the coordinate. Later elements are ignored. The result is an `IndexError` iff some coordinate has fewer than two elements. |
| MapFile.LonLat | backend/file.py:12 | Reading an entry back always gives a two-element `[lon, lat]` list. |
| CountryLookup.ScanFrom | backend/map.py:26-30 | The row loop is characterised completely. It runs off the end iff every row has a first field that is not the country. Otherwise it stops at the first row that is blank or names the country. That row is classified as found (at least five fields), short, or blank. |
| CountryLookup.Scan | backend/map.py:26 | Definition of the `for row in reader` loop started at the first row. `CountryLookup.ScanFrom` and `CountryLookup.ScanFirstMatch` state where it stops. |
| CountryLookup.ScanFirstMatch | backend/map.py:26-29 | The first row naming the country decides the outcome, after rows that do not name it. |
| CountryLookup.LaterRowsIgnored | backend/map.py:27-29 | Rows after the row where the loop stopped are never consulted. Appending rows to the table does not change the outcome. |
| CountryLookup.ScanSkips | backend/map.py:26-27 | Rows already passed over do not change where the loop stops. |
| CountryLookup.BoundingBoxText | backend/map.py:29 | Definition of the f-string joining `row[1]` to `row[4]` with commas, the same in both variants (backend/yolov5/map.py:29). `CountryLookup.BoundingBoxTextSplits` states that it gives the four bounds back. |
| CountryLookup.BoundingBoxTextSplits | backend/map.py:28-29 | When no bound holds a comma, splitting the joined text at its commas gives back exactly `row[1:5]`, in order. |
| CountryLookup.SplitJoin | backend/map.py:29 | Joining comma-free parts with commas and splitting the text again gives back the parts. |
| CountryLookup.SplitAfter | backend/map.py:29 | Splitting after the first comma-free part gives that part, followed by the split of the rest. |
| CountryLookup.NoCommaSplit | backend/map.py:29 | Text without a comma splits into itself alone. |
| Chunking.Chunks | backend/map.py:66 | Definition of `[s[i:i+n] for i in range(0, len(s), n)]`. Its properties are stated by `Chunking.FlattenChunks`, `Chunking.ChunksShape` and `Chunking.ChunkAt`. |
| Chunking.FlattenChunks | backend/map.py:66 | Flattening the batches reproduces the list exactly, in order. |
| Chunking.ChunksShape | backend/map.py:66 | Every batch is non-empty and holds at most `n` items. All batches but the last hold exactly `n`. There are `ceil(len / n)` batches. |
| Chunking.ChunkAt | backend/map.py:66 | Batch `k` is the slice `s[k*n : k*n+n]`, cut short at the end. Its start lies inside the list. |
| Chunking.FlattenAppend | backend/map.py:68-77 | Flattening distributes over appending one more batch. |
| BackendMap.BoundingBox | backend/map.py:22-30 | Definition of what `read_csv` returns or raises, by the outcome of the row loop. Its properties come from `CountryLookup.ScanFrom`, `CountryLookup.ScanFirstMatch` and `YoloMap.ReadCsvVariants`. `BackendMap.ReadCsv` computes it. |
| BackendMap.ReadCsv | backend/map.py:22-30 | The row loop with early return computes the lookup outcome. A match gives `Ok` of its comma-joined bounds. No match gives `Ok("0,0,0,0")`. A blank row gives `IndexError` and a short matching row gives `ValueError`. |
| BackendMap.Detects | backend/map.py:34-44 | Definition of the success path of `send_to_inference`: the URL is not null, the download returns and the predictor answers truthily. `BackendMap.SendToInference` states that the coordinates come back exactly then. |
| BackendMap.SendToInference | backend/map.py:32-47 | The result is the coordinates iff the URL is not null, the download returns and the predictor answers truthily. Otherwise the result is `None`, including when the download or predictor raises. |
| BackendMap.Submitted | backend/map.py:72 | Definition of `'thumb_2048_url' in item`: the key is present, even with a null value. Its use is stated by `BackendMap.Submissions` and `BackendMap.Submit`. |
| BackendMap.Malformed | backend/map.py:71-72 | Definition: a submitted record without `geometry.coordinates`. `BackendMap.Submit` states that such a record raises `KeyError`. |
| BackendMap.Submissions | backend/map.py:72 | The submitted records are exactly the records of the batch carrying the key, in batch order, and there are at most as many as records. |
| BackendMap.TaskOf | backend/map.py:71 | Definition of the arguments `item['thumb_2048_url'], item['geometry']['coordinates']` of one submission, with a JSON null URL passed as `None`. `BackendMap.SubmitInOrder` states that task `k` is built from the `k`-th submitted record. |
| BackendMap.Submit | backend/map.py:70-73 | Exactly the records carrying `thumb_2048_url` are submitted, a null value included. The submission raises `KeyError` iff some submitted record lacks its coordinates. There are never more tasks than records. |
| BackendMap.SubmitInOrder | backend/map.py:70-73 | One task per submitted record, in batch order. Task `k` has the URL and coordinates of the `k`-th submitted record. |
| BackendMap.Detections | backend/map.py:70-77 | The kept coordinates are exactly those of the submitted records whose URL yields a truthy prediction and whose coordinate list is non-empty. There are at most as many as records. |
| BackendMap.DetectionsAppend | backend/map.py:68-77 | The detections of two consecutive record lists are the detections of each, concatenated. |
| BackendMap.Kept | backend/map.py:70-77 | Definition: a record whose coordinates end up in `filtered_coords`. It is submitted, its coordinates are present and non-empty, and its URL yields a truthy prediction. `BackendMap.Detections` and `BackendMap.RunInference` state its use. |
| BackendMap.Hit | backend/map.py:75-77 | Definition of what one completed future appends: its coordinates when `send_to_inference` returns them and `if coords:` holds, nothing otherwise. `BackendMap.SubmitHits` relates it to `BackendMap.Detections`. |
| BackendMap.Contributions | backend/map.py:70-71 | Each submitted task contributes one, possibly empty, list of coordinates. |
| BackendMap.SubmitHits | backend/map.py:70-77 | For a batch that submits successfully, the tasks' contributions, flattened, are the batch's detections. |
| BackendMap.CollectCompleted | backend/map.py:74-77 | Results are consumed in any completion order. The coordinates appended form, as a multiset, exactly the truthy contributions of the batch's tasks. |
| BackendMap.RunInference | backend/map.py:49-80 | A lookup error escapes. A failed image search gives `[]`. Otherwise the run raises `KeyError` iff some submitted record lacks coordinates. If it does not, `filtered_coords` equals the detections over all records as a multiset, and it is at most as long as `data`. |
| YoloMap.BoundingBox | backend/yolov5/map.py:16-33 | Definition of what this `read_csv` returns or raises, by the outcome of the row loop: the joined bounds, the zero tuple, or `IndexError`. Its properties come from `CountryLookup.ScanFrom` and `YoloMap.ReadCsvVariants`. `YoloMap.ReadCsv` computes it. |
| YoloMap.QueryText | backend/yolov5/map.py:59 | Definition of how `read_csv(country)` is rendered into the URL: the text itself, or `"(0, 0, 0, 0)"` for the tuple. `YoloMap.ReadCsvVariants` compares it with `backend/map.py`. |
| YoloMap.ReadCsv | backend/yolov5/map.py:16-33 | A match gives `Ok` of its comma-joined bounds. No match gives `Ok` of the zero tuple, not a string. A blank row or a short matching row gives `IndexError`. |
| YoloMap.ReadCsvVariants | backend/yolov5/map.py:20-33 | The two `read_csv` variants raise on the same tables and send the same `bbox` text on a match. On a miss the texts differ: `"0,0,0,0"` against `"(0, 0, 0, 0)"`. |
| YoloMap.GetImg | backend/yolov5/map.py:38-54 | The result is `(body, coordinates)` iff the URL is present and not null, the coordinates exist and the download returns. It is `None` otherwise. |
| YoloMap.Present | backend/yolov5/map.py:70-73 | The non-`None` results are exactly the present values, and there are at most as many as results. |
| YoloMap.Downloads | backend/yolov5/map.py:67-75 | Definition: `get_img` over the records in order (`executor.map`), with the `None` results dropped. `YoloMap.CollectDownloads` and `YoloMap.Present` state its properties. |
| YoloMap.Bodies | backend/yolov5/map.py:73-74 | Definition of `image_paths`: the `img_data` half of each `img_data, coords = result`. `YoloMap.CollectDownloads` states that the loop builds it. |
| YoloMap.Places | backend/yolov5/map.py:73-75 | Definition of `map_coords`: the `coords` half of each `img_data, coords = result`. `YoloMap.CollectDownloads` states that the loop builds it. |
| YoloMap.CollectDownloads | backend/yolov5/map.py:67-75 | `image_paths` and `map_coords` have equal length, the number of non-`None` results. Position `k` of both holds the `k`-th present result, in the order of `res`. |
| YoloMap.Where | backend/yolov5/map.py:87-110 | Every selected index lies below `n` and its flag holds. There are at most `n` of them. |
| YoloMap.WhereOrdered | backend/yolov5/map.py:108-110 | The selected indices increase, and an index below `n` is selected iff its flag holds. |
| YoloMap.WherePrefix | backend/yolov5/map.py:100-110 | Which indices below `n` are selected depends only on the flags below `n`. |
| YoloMap.WhereAll | backend/yolov5/map.py:87-98 | Every index below `n` is selected iff every flag below `n` holds. No image is skipped iff every image is kept. |
| YoloMap.WhereShift | backend/yolov5/map.py:87-110 | The `p`-th kept image has position at least `p` in `image_paths`. It equals `p` iff no earlier image was skipped, so one skip shifts every later index. |
| YoloMap.WhereCompose | backend/yolov5/map.py:87-110 | Selecting by `b` among the positions kept by `a` selects exactly the positions where `a` and `b` both hold. |
| YoloMap.Tensors | backend/yolov5/map.py:87-98 | Definition of `img_tensors`: the tensors of the decodable images at the positions `YoloMap.Where` selects, in order. `YoloMap.BuildTensors` computes it, and `YoloMap.AlignedIffNoSkip` states when tensor `p` comes from image `p`. |
| YoloMap.Decodable | backend/yolov5/map.py:88-92 | Definition of which images pass the `try` around `PIL.Image.open(path).convert("RGB")`. `YoloMap.BuildTensors` and `YoloMap.AlignedIffNoSkip` state its use. |
| YoloMap.BuildTensors | backend/yolov5/map.py:87-98 | Unidentified images are skipped. Any other decoding error escapes, so the result is `ImageError` iff some image breaks the decoder. Otherwise the tensors are those of the decodable images, in order. Tensor `p` came from image `origin[p]`. |
| YoloMap.Positive | backend/yolov5/map.py:109 | Definition of `det is not None and len(det)`. `YoloMap.SelectDetections` states which coordinates it keeps. |
| YoloMap.Positives | backend/yolov5/map.py:109 | Definition: the test of line 109 applied to every tensor's detection. `YoloMap.SelectDetections` states that `map_coords` is kept exactly at its true positions. |
| YoloMap.SelectDetections | backend/yolov5/map.py:84-113 | The batches are `img_tensors[i:i+32]`, and `map_coords[i + j]` is appended iff detection `j` of the batch at `i` is non-`None` and non-empty. The result is `map_coords` at the increasing positions of the positive tensors, and it is never longer than `img_tensors`. |
| YoloMap.BatchIsChunk | backend/yolov5/map.py:84-101 | The slice `img_tensors[i:i+32]` that the loop cuts at a multiple `i` of 32 is chunk `i / 32` of the 32-chunking. `SelectDetections` relies on it, and `Chunking.FlattenChunks` states that these chunks cover every index once, in order. |
| YoloMap.SelectStep | backend/yolov5/map.py:108-110 | One more detection appends its coordinate iff it is positive. |
| YoloMap.AsWrittenSelection | backend/yolov5/map.py:87-110 | Definition of what `model` keeps: `map_coords` at the positions of the positive tensors. `YoloMap.Model` computes it, and `YoloMap.AlignedWhenNoneSkipped` and `YoloMap.SkipMisalignsCoordinates` compare it with the intended selection. |
| YoloMap.IntendedSelection | backend/yolov5/map.py:87-110 | Definition of the evident intent: the coordinates of exactly the images that decode and get a detection, in order. `YoloMap.ModelAligned` computes it. |
| YoloMap.AlignedIffNoSkip | backend/yolov5/map.py:87-110 | Tensor `p` comes from image `p` for every `p` iff no image was skipped. |
| YoloMap.SelectionThroughSurvivors | backend/yolov5/map.py:87-110 | Taking each decoded image's own coordinate, then keeping the positive ones, gives exactly the coordinates of the images with a detection. |
| YoloMap.AlignedWhenNoneSkipped | backend/yolov5/map.py:87-110 | When every image decodes, `map_coords[i + j]` belongs to the detected image, and the result is what was intended. |
| YoloMap.SkipMisalignsCoordinates | backend/yolov5/map.py:87-110 | Two images, where the first is unidentified and the second decodes with a detection, at distinct coordinates. As written `model` keeps the first image's coordinate. The intended result is the second's. |
| YoloMap.Model | backend/yolov5/map.py:57-116 | A lookup error escapes. A failed image search raises. A breaking image raises `ImageError`. Otherwise the result is the as-written selection over the collected downloads. |
| YoloMap.BuildTensorsAligned | backend/yolov5/map.py:87-98 | The decodable images' tensors are built as `model` builds them. Each kept image's coordinate is appended next to its tensor, so `valid_coords[p]` belongs to tensor `p`. |
| YoloMap.ModelAligned | backend/yolov5/map.py:57-116 | Same error behaviour as `model`. Otherwise the result is exactly the coordinates of the downloaded images that decode and get a detection, in download order. |

## Left out

- Network I/O is not modelled. This covers the image-search request, thumbnail downloads, the hosted predictor client and loading of the access token. Each is a function parameter, assumed to give the same answer for the same argument.
- Thread pools are left out. `as_completed` is modelled as an arbitrary choice among pending tasks, so the collected order is unspecified. `executor.map` is modelled as an ordered map.
- Concurrency itself, such as timing and parallel execution, is left out. It does not affect the values computed.
- Temporary files and writing `output.json` are left out because they are file-system I/O. `MapFile.CreateFile` returns the document that `json.dump` would write.
- Opening and reading the CSV file is left out. The model searches rows already read into memory, and a blank line appears as a row with no fields.
- Image decoding, resizing, tensor arithmetic, the YOLO network and non-maximum suppression are left out as floating-point library code. They are the `decode` and `detect` parameters.
- Logging and `print` calls are left out because they do not affect results.
- `backend/server.py` (Flask routing) and the React frontend are not part of this model.
- YoloMap.SelectDetections: the detection for tensor `j` of a batch is a function of that tensor alone. It does not depend on the other tensors stacked into the same batch.
- YoloMap.Model: loading the detector weights (`DetectMultiBackend`) is assumed to succeed.
- YoloMap.Model: `select_device`, the detector call and `non_max_suppression` are assumed not to raise.
- BackendMap.RunInference: the response's `data` list and a raising image search, including `raise_for_status`, are the two outcomes of `fetch`. The JSON decoding is not modelled separately.

## Findings

| source | as written | input that shows it | evidently intended | confidence | as-written member | corrected member |
|---|---|---|---|---|---|---|
| backend/yolov5/map.py:87-110 | A skipped unidentified image shortens `img_tensors` but not `map_coords`, and detection `j` of batch `i` is mapped to `map_coords[i + j]`. | Two downloads, the first unidentified and the second decoded with a detection, at coordinates c0 != c1. The result is `[c0]`. | The coordinates of exactly the images with a detection, here `[c1]`. | not executed | YoloMap.SkipMisalignsCoordinates | YoloMap.ModelAligned |
