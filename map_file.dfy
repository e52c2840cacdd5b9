/**
 The downloadable map document (backend/file.py): the detected coordinates,
 given as `[lon, lat]` lists, become the entries `{lat, lng}` of a map named
 "GeoTrainr Map". Writing the document to `output.json` is not modelled; the
 method returns the document that would be written.
 */
module MapFile {

  import opened Common

  const MapName := "GeoTrainr Map"

  /** One entry `{"lat": ..., "lng": ...}` of `customCoordinates`. */
  datatype LatLng = LatLng(lat: Num, lng: Num)

  /** The dictionary `{'name': ..., 'customCoordinates': [...]}`. */
  datatype MapDocument = MapDocument(name: string, customCoordinates: seq<LatLng>)

  /** Reading an entry back as the `[lon, lat]` list it came from. */
  function LonLat(e: LatLng): (c: Coordinate)
    ensures |c| == 2
  {
    [e.lng, e.lat]
  }

  /** `create_file`: one entry per coordinate, in order, axes swapped; a coordinate shorter than two raises. */
  method CreateFile(coordinates: seq<Coordinate>) returns (r: Result<MapDocument>)
    ensures r.Err? <==> exists i :: 0 <= i < |coordinates| && |coordinates[i]| < 2
    ensures r.Err? ==> r.error == IndexError
    ensures r.Ok? ==> r.value.name == MapName
    ensures r.Ok? ==> |r.value.customCoordinates| == |coordinates|
    ensures r.Ok? ==> forall i :: 0 <= i < |coordinates| ==>
      r.value.customCoordinates[i] == LatLng(coordinates[i][1], coordinates[i][0])
    ensures r.Ok? ==> forall i :: 0 <= i < |coordinates| ==>
      LonLat(r.value.customCoordinates[i]) == coordinates[i][..2]
  {
    var data := MapDocument(MapName, []);
    for k := 0 to |coordinates|
      invariant data.name == MapName
      invariant |data.customCoordinates| == k
      invariant forall i :: 0 <= i < k ==> |coordinates[i]| >= 2
      invariant forall i :: 0 <= i < k ==>
        data.customCoordinates[i] == LatLng(coordinates[i][1], coordinates[i][0])
    {
      var coordinate := coordinates[k];
      if |coordinate| < 2 {
        return Err(IndexError);
      }
      var parsed := LatLng(coordinate[1], coordinate[0]);
      data := data.(customCoordinates := data.customCoordinates + [parsed]);
    }
    forall i | 0 <= i < |coordinates|
      ensures LonLat(data.customCoordinates[i]) == coordinates[i][..2]
    {
      assert coordinates[i][..2] == [coordinates[i][0], coordinates[i][1]];
    }
    r := Ok(data);
  }
}
