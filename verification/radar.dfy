/**
 * mainWithRadar.py's mirror of each inserted dealer into Radar.io: the
 * geofence request `upsert_radar_geofence` builds from a dealer tuple, its
 * outcome, and the counting loop `insert_data_to_neon` runs after a
 * successful commit. The HTTP call itself is a parameter: the status code
 * the server answered, or `None` when the request raised.
 */
module Radar {
  import opened Wrappers
  import opened PyText
  import opened Clean
  import opened Records
  import opened Frame
  import Dealers

  const GeofenceBase: string := "https://api.radar.io/v1/geofences/dealer/"
  const ContentType: string := "application/x-www-form-urlencoded"
  const DescriptionLimit: nat := 120
  const Radius: string := "50"
  const GeofenceType: string := "circle"
  const Tag: string := "dealer"

  /** The tuple fields `upsert_radar_geofence` reads, by position. */
  datatype Fields = Fields(
    dealerId: string,                      // [0]
    userId: int,                           // [1]
    name: Option<string>,                  // [4]
    region: Option<string>,                // [5]
    area: Option<string>,                  // [6]
    phoneNo: string,                       // [7]
    latitude: Option<real>,                // [17]
    longitude: Option<real>,               // [18]
    verificationStatus: Option<string>)    // [19]

  function TextOrNone(v: Value): Option<Option<string>> {
    match v
    case Null => Some(None)
    case Str(s) => Some(Some(s))
    case _ => None
  }

  function NumberOrNone(v: Value): Option<Option<real>> {
    match v
    case Null => Some(None)
    case Num(x) => Some(Some(x))
    case _ => None
  }

  /**
   * The fields of a dealer tuple; `None` when a field holds a kind of value
   * the dealer import never puts there.
   */
  function FieldsOf(t: Record): (f: Option<Fields>)
    requires |t| >= 20
    ensures f.Some? ==> t[0] == Str(f.value.dealerId) && t[1] == Int(f.value.userId) && t[7] == Str(f.value.phoneNo)
    ensures f.Some? ==> t[17] == OptNum(f.value.latitude) && t[18] == OptNum(f.value.longitude)
    ensures f.Some? ==> t[4] == OptStr(f.value.name) && t[19] == OptStr(f.value.verificationStatus)
    ensures f.Some? ==> t[5] == OptStr(f.value.region) && t[6] == OptStr(f.value.area)
  {
    if !t[0].Str? || !t[1].Int? || !t[7].Str? then None
    else
      match (TextOrNone(t[4]), TextOrNone(t[5]), TextOrNone(t[6]), NumberOrNone(t[17]), NumberOrNone(t[18]), TextOrNone(t[19]))
      case (Some(name), Some(region), Some(area), Some(lat), Some(lon), Some(status)) =>
        Some(Fields(t[0].s, t[1].n, name, region, area, t[7].s, lat, lon, status))
      case _ => None
  }

  lemma FieldsOfTyped(t: Record, f: Fields)
    requires |t| >= 20
    requires t[0] == Str(f.dealerId) && t[1] == Int(f.userId) && t[7] == Str(f.phoneNo)
    requires t[4] == OptStr(f.name) && t[5] == OptStr(f.region) && t[6] == OptStr(f.area)
    requires t[17] == OptNum(f.latitude) && t[18] == OptNum(f.longitude)
    requires t[19] == OptStr(f.verificationStatus)
    ensures FieldsOf(t) == Some(f)
  {
    assert TextOrNone(t[4]) == Some(f.name) && TextOrNone(t[5]) == Some(f.region);
    assert TextOrNone(t[6]) == Some(f.area) && TextOrNone(t[19]) == Some(f.verificationStatus);
    assert NumberOrNone(t[17]) == Some(f.latitude) && NumberOrNone(t[18]) == Some(f.longitude);
  }

  /**
   * The fields of a tuple the dealer import builds: every such tuple has
   * the field kinds the geofence code reads, and its coordinates are the
   * parsed latitude and longitude cells.
   */
  function DealerFields(row: seq<Cell>, id: string, p: Dealers.Parsers): (f: Fields)
    ensures FieldsOf(Dealers.DealerRow(row, id, p)) == Some(f)
    ensures f.dealerId == id
    ensures f.latitude == Dealers.ParseNumber(CellAt(row, 16), p)
    ensures f.longitude == Dealers.ParseNumber(CellAt(row, 17), p)
    ensures f.phoneNo == Dealers.PhoneText(CellAt(row, 6))
    ensures f.name == CleanValue(CellAt(row, 3))
    ensures f.region == CleanValue(CellAt(row, 4)) && f.area == CleanValue(CellAt(row, 5))
    ensures f.verificationStatus == CleanValue(CellAt(row, 18))
  {
    var f := Fields(id, IntOrZero(Dealers.ParseNumber(CellAt(row, 0), p)),
                    CleanValue(CellAt(row, 3)), CleanValue(CellAt(row, 4)), CleanValue(CellAt(row, 5)),
                    Dealers.PhoneText(CellAt(row, 6)),
                    Dealers.ParseNumber(CellAt(row, 16), p), Dealers.ParseNumber(CellAt(row, 17), p),
                    CleanValue(CellAt(row, 18)));
    Dealers.DealerRowShape(row, id, p);
    Dealers.RadarTextFields(row, id, p);
    FieldsOfTyped(Dealers.DealerRow(row, id, p), f);
    f
  }

  /** `str(x)` of a text field that may be `None`. */
  function PyStr(o: Option<string>): string {
    match o
    case None => "None"
    case Some(s) => s
  }

  /** `f"dealer:{dealer_id}"`: the geofence's external id. */
  function ExternalId(dealerId: string): string {
    "dealer:" + dealerId
  }

  /** The metadata keys, in the order the dictionary literal lists them. */
  const MetadataKeys: seq<string> := ["dealerId", "userId", "region", "area", "phoneNo", "verificationStatus"]

  /**
   * The metadata dictionary before `None` values are removed: the user id
   * only when it is truthy (non-zero), the phone number always.
   */
  function MetadataEntries(f: Fields): (r: seq<(string, Option<string>)>)
    ensures |r| == |MetadataKeys|
    ensures forall i :: 0 <= i < |r| ==> r[i].0 == MetadataKeys[i]
    ensures r[0].1 == Some(f.dealerId) && r[4].1 == Some(f.phoneNo)
    ensures r[1].1.Some? <==> f.userId != 0
    ensures r[1].1 == (if f.userId != 0 then Some(IntToDecimal(f.userId)) else None)
    ensures r[2].1 == f.region && r[3].1 == f.area && r[5].1 == f.verificationStatus
  {
    [ ("dealerId", Some(f.dealerId)),
      ("userId", if f.userId != 0 then Some(IntToDecimal(f.userId)) else None),
      ("region", f.region),
      ("area", f.area),
      ("phoneNo", Some(f.phoneNo)),
      ("verificationStatus", f.verificationStatus) ]
  }

  /** `{k: v for k, v in d.items() if v is not None}`, keeping the dictionary's order. */
  function DropNone(entries: seq<(string, Option<string>)>): (r: seq<(string, string)>)
    ensures |r| <= |entries|
    ensures forall e :: e in r <==> (e.0, Some(e.1)) in entries
    ensures entries != [] && entries[0].1.Some? ==> r != [] && r[0] == (entries[0].0, entries[0].1.value)
  {
    if entries == [] then []
    else
      var rest := DropNone(entries[1..]);
      assert forall e :: e in entries <==> e == entries[0] || e in entries[1..];
      match entries[0].1
      case None => rest
      case Some(v) => [(entries[0].0, v)] + rest
  }

  /**
   * The comprehension filters entry by entry: the result for a
   * concatenation is the concatenation of the results, so the entries it
   * keeps stay in the dictionary's order.
   */
  lemma {:induction false} DropNoneAppend(a: seq<(string, Option<string>)>, b: seq<(string, Option<string>)>)
    ensures DropNone(a + b) == DropNone(a) + DropNone(b)
    decreases |a|
  {
    if a == [] {
      assert a + b == b;
    } else {
      var ab := a + b;
      assert ab[0] == a[0];
      assert ab[1..] == a[1..] + b;
      DropNoneAppend(a[1..], b);
      var head := if a[0].1.None? then [] else [(a[0].0, a[0].1.value)];
      assert DropNone(ab) == head + DropNone(a[1..] + b);
      assert DropNone(a) == head + DropNone(a[1..]);
    }
  }

  /** A single entry is kept exactly when its value is present. */
  lemma DropNoneSingle(e: (string, Option<string>))
    ensures DropNone([e]) == if e.1.None? then [] else [(e.0, e.1.value)]
  {
    assert [e][1..] == [];
  }

  /**
   * The metadata sent with the geofence: it always starts with the dealer
   * id, and holds exactly the present values of the dictionary.
   */
  function Metadata(f: Fields): (r: seq<(string, string)>)
    ensures |r| >= 2 && r[0] == ("dealerId", f.dealerId)
    ensures forall e :: e in r <==> (e.0, Some(e.1)) in MetadataEntries(f)
  {
    var es := MetadataEntries(f);
    assert es[4] == ("phoneNo", Some(f.phoneNo));
    var r := DropNone(es);
    assert ("phoneNo", f.phoneNo) in r;
    r
  }

  /**
   * What the metadata promises: `dealerId` and `phoneNo` are always there
   * (the phone even when empty), `userId` is there exactly when the user
   * id is non-zero and then holds `str(user_id)`, and a region is there
   * exactly when the tuple has one.
   */
  lemma MetadataContents(f: Fields)
    ensures ("dealerId", f.dealerId) in Metadata(f)
    ensures ("phoneNo", f.phoneNo) in Metadata(f)
    ensures f.userId != 0 ==> ("userId", IntToDecimal(f.userId)) in Metadata(f)
    ensures f.userId == 0 ==> forall e :: e in Metadata(f) ==> e.0 != "userId"
    ensures forall v :: ("region", v) in Metadata(f) <==> f.region == Some(v)
    ensures forall e :: e in Metadata(f) ==> e.0 in MetadataKeys
  {
    MetadataAlwaysHas(f);
    MetadataUserId(f);
    MetadataRegion(f);
    MetadataKnownKeys(f);
  }

  lemma MetadataAlwaysHas(f: Fields)
    ensures ("dealerId", f.dealerId) in Metadata(f)
    ensures ("phoneNo", f.phoneNo) in Metadata(f)
  {
    var es := MetadataEntries(f);
    assert es[4] == ("phoneNo", Some(f.phoneNo));
    var m := Metadata(f);
    assert m[0] == ("dealerId", f.dealerId);
  }

  lemma MetadataUserId(f: Fields)
    ensures f.userId != 0 ==> ("userId", IntToDecimal(f.userId)) in Metadata(f)
    ensures f.userId == 0 ==> forall e :: e in Metadata(f) ==> e.0 != "userId"
  {
    var es := MetadataEntries(f);
    assert es[1] == ("userId", if f.userId != 0 then Some(IntToDecimal(f.userId)) else None);
    if f.userId == 0 {
      forall e | e in Metadata(f) ensures e.0 != "userId" {
        var k :| 0 <= k < |es| && es[k] == (e.0, Some(e.1));
        assert k != 1;
        assert es[k].0 == MetadataKeys[k];
        assert MetadataKeys[k] != "userId";
      }
    }
  }

  lemma MetadataRegion(f: Fields)
    ensures forall v :: ("region", v) in Metadata(f) <==> f.region == Some(v)
  {
    forall v
      ensures ("region", v) in Metadata(f) <==> f.region == Some(v)
    {
      MetadataRegionValue(f, v);
    }
  }

  lemma MetadataRegionValue(f: Fields, v: string)
    ensures ("region", v) in Metadata(f) <==> f.region == Some(v)
  {
    var es := MetadataEntries(f);
    if f.region == Some(v) {
      assert es[2] == ("region", Some(v));
    }
    if ("region", v) in Metadata(f) {
      var k :| 0 <= k < |es| && es[k] == ("region", Some(v));
      assert es[k].0 == MetadataKeys[k];
      assert k == 2;
    }
  }

  lemma MetadataAreaValue(f: Fields, v: string)
    ensures ("area", v) in Metadata(f) <==> f.area == Some(v)
  {
    var es := MetadataEntries(f);
    if f.area == Some(v) {
      assert es[3] == ("area", Some(v));
    }
    if ("area", v) in Metadata(f) {
      var k :| 0 <= k < |es| && es[k] == ("area", Some(v));
      assert es[k].0 == MetadataKeys[k];
      assert k == 3;
    }
  }

  lemma MetadataStatusValue(f: Fields, v: string)
    ensures ("verificationStatus", v) in Metadata(f) <==> f.verificationStatus == Some(v)
  {
    var es := MetadataEntries(f);
    if f.verificationStatus == Some(v) {
      assert es[5] == ("verificationStatus", Some(v));
    }
    if ("verificationStatus", v) in Metadata(f) {
      var k :| 0 <= k < |es| && es[k] == ("verificationStatus", Some(v));
      assert es[k].0 == MetadataKeys[k];
      assert k == 5;
    }
  }

  /**
   * The metadata in terms of the tuple it comes from: the id at element 0
   * and the phone at element 7 are always sent, and a region (element 5)
   * or an area (element 6) or a verification status (element 19) is sent
   * exactly when the tuple holds text there.
   */
  lemma MetadataOfTuple(t: Record)
    requires |t| >= 20 && FieldsOf(t).Some?
    ensures t[0].Str? && t[7].Str?
    ensures ("dealerId", t[0].s) in Metadata(FieldsOf(t).value)
    ensures ("phoneNo", t[7].s) in Metadata(FieldsOf(t).value)
    ensures forall v :: ("region", v) in Metadata(FieldsOf(t).value) <==> t[5] == Str(v)
    ensures forall v :: ("area", v) in Metadata(FieldsOf(t).value) <==> t[6] == Str(v)
    ensures forall v :: ("verificationStatus", v) in Metadata(FieldsOf(t).value) <==> t[19] == Str(v)
  {
    var f := FieldsOf(t).value;
    MetadataAlwaysHas(f);
    forall v
      ensures ("region", v) in Metadata(f) <==> t[5] == Str(v)
      ensures ("area", v) in Metadata(f) <==> t[6] == Str(v)
      ensures ("verificationStatus", v) in Metadata(f) <==> t[19] == Str(v)
    {
      MetadataRegionValue(f, v);
      MetadataAreaValue(f, v);
      MetadataStatusValue(f, v);
    }
  }

  lemma MetadataKnownKeys(f: Fields)
    ensures forall e :: e in Metadata(f) ==> e.0 in MetadataKeys
  {
    var es := MetadataEntries(f);
    forall e | e in Metadata(f) ensures e.0 in MetadataKeys {
      var k :| 0 <= k < |es| && es[k] == (e.0, Some(e.1));
      assert es[k].0 == MetadataKeys[k];
    }
  }

  datatype Payload = Payload(
    description: string,
    geofenceType: string,        // the payload's "type"
    coordinates: (real, real),   // [longitude, latitude], before json.dumps
    radius: string,
    tag: string,
    externalId: string,
    metadata: seq<(string, string)>)

  datatype Request = Request(url: string, headers: seq<(string, string)>, payload: Payload)

  /**
   * The PUT `upsert_radar_geofence` sends, or `None` when it skips the
   * dealer because a coordinate is missing. The URL ends in the same
   * `dealer:<id>` the payload carries as external id; the description is
   * `str(name)` cut to at most 120 characters; coordinates go longitude
   * first; the secret key is the Authorization header.
   */
  function GeofenceRequest(f: Fields, secretKey: string): (r: Option<Request>)
    ensures r.None? <==> f.latitude.None? || f.longitude.None?
    ensures r.Some? ==> r.value.payload.externalId == ExternalId(f.dealerId)
    ensures r.Some? ==> r.value.url == GeofenceBase + r.value.payload.externalId
    ensures r.Some? ==> EndsWith(r.value.url, "dealer:" + f.dealerId)
    ensures r.Some? ==> StartsWith(PyStr(f.name), r.value.payload.description)
    ensures r.Some? ==>
              |r.value.payload.description| == if |PyStr(f.name)| <= DescriptionLimit then |PyStr(f.name)| else DescriptionLimit
    ensures r.Some? ==> r.value.payload.coordinates == (f.longitude.value, f.latitude.value)
    ensures r.Some? ==> ("Authorization", secretKey) in r.value.headers
  {
    if f.latitude.None? || f.longitude.None? then None
    else
      var ext := ExternalId(f.dealerId);
      var url := GeofenceBase + ext;
      assert url[|url| - |ext|..] == ext;
      var headers := [("Authorization", secretKey), ("Content-Type", ContentType)];
      var payload := Payload(
        Take(PyStr(f.name), DescriptionLimit), GeofenceType,
        (f.longitude.value, f.latitude.value), Radius, Tag, ext, Metadata(f));
      Some(Request(url, headers, payload))
  }

  /**
   * The request carries the filtered metadata: the dealer id and phone
   * always, the user id only when it is non-zero, and no `None` value.
   */
  lemma GeofenceMetadata(f: Fields, secretKey: string)
    requires f.latitude.Some? && f.longitude.Some?
    ensures var m := GeofenceRequest(f, secretKey).value.payload.metadata;
      && m[0] == ("dealerId", f.dealerId)
      && ("phoneNo", f.phoneNo) in m
      && (f.userId != 0 ==> ("userId", IntToDecimal(f.userId)) in m)
      && (f.userId == 0 ==> forall e :: e in m ==> e.0 != "userId")
      && forall e :: e in m <==> (e.0, Some(e.1)) in MetadataEntries(f)
  {
    MetadataContents(f);
  }

  /** A missing name is sent as the description "None", the text `str(None)` gives. */
  lemma MissingNameDescription(f: Fields, secretKey: string)
    requires f.name.None? && f.latitude.Some? && f.longitude.Some?
    ensures GeofenceRequest(f, secretKey).value.payload.description == "None"
  {
  }

  /**
   * In the corrected model a dealer row whose latitude or longitude cell is
   * missing produces no geofence request at all.
   */
  lemma MissingCoordinateSkipsGeofence(row: seq<Cell>, id: string, p: Dealers.Parsers, secretKey: string)
    requires CellAt(row, 16) == Missing || CellAt(row, 17) == Missing
    ensures GeofenceRequest(DealerFields(row, id, p), secretKey).None?
  {
  }

  /**
   * `upsert_radar_geofence`'s result: false without a request when a
   * coordinate is missing; otherwise true exactly when the server answered
   * the PUT with 200 or 201, and false when it refused or the request
   * raised (`status` is `None`).
   */
  function Upsert(f: Fields, status: Option<int>): (ok: bool)
    ensures ok ==> f.latitude.Some? && f.longitude.Some?
    ensures f.latitude.Some? && f.longitude.Some? ==> (ok <==> status == Some(200) || status == Some(201))
  {
    if f.latitude.None? || f.longitude.None? then false
    else status == Some(200) || status == Some(201)
  }

  /** A successful upsert is one whose request was built and accepted. */
  lemma UpsertIsRequestOutcome(f: Fields, secretKey: string, status: Option<int>)
    ensures Upsert(f, status) <==> GeofenceRequest(f, secretKey).Some? && (status == Some(200) || status == Some(201))
  {
  }

  /** How many of the first `n` dealers got a geofence. */
  function SuccessesBefore(fs: seq<Fields>, statuses: seq<Option<int>>, n: nat): nat
    requires |statuses| == |fs| && n <= |fs|
  {
    if n == 0 then 0
    else SuccessesBefore(fs, statuses, n - 1) + (if Upsert(fs[n - 1], statuses[n - 1]) then 1 else 0)
  }

  /** How many of the first `n` dealers have both coordinates. */
  function WithCoordinatesBefore(fs: seq<Fields>, n: nat): nat
    requires n <= |fs|
  {
    if n == 0 then 0
    else WithCoordinatesBefore(fs, n - 1) + (if fs[n - 1].latitude.Some? && fs[n - 1].longitude.Some? then 1 else 0)
  }

  function SuccessCount(fs: seq<Fields>, statuses: seq<Option<int>>): nat
    requires |statuses| == |fs|
  {
    SuccessesBefore(fs, statuses, |fs|)
  }

  function WithCoordinates(fs: seq<Fields>): nat {
    WithCoordinatesBefore(fs, |fs|)
  }

  /**
   * The Radar loop of `insert_data_to_neon`: one upsert per record, in
   * order, counting the successes. The count never exceeds the number of
   * dealers with both coordinates.
   */
  method ImportGeofences(fs: seq<Fields>, statuses: seq<Option<int>>) returns (count: nat)
    requires |statuses| == |fs|
    ensures count == SuccessCount(fs, statuses)
    ensures count <= WithCoordinates(fs) <= |fs|
  {
    count := 0;
    var i := 0;
    while i < |fs|
      invariant 0 <= i <= |fs|
      invariant count == SuccessesBefore(fs, statuses, i)
      invariant count <= WithCoordinatesBefore(fs, i) <= i
    {
      if Upsert(fs[i], statuses[i]) {
        count := count + 1;
      }
      i := i + 1;
    }
  }

  /** What one run of `insert_data_to_neon` achieves. */
  datatype Outcome = Outcome(committed: bool, geofences: nat)

  /**
   * The insert-then-mirror sequence: nothing happens without records;
   * the batch insert either commits or rolls back (`dbCommits`, database
   * I/O); Radar runs only after a commit and only with a non-empty secret
   * key, and then counts the successful upserts.
   */
  function InsertAndMirror(fs: seq<Fields>, dbCommits: bool, radarKey: Option<string>,
                           statuses: seq<Option<int>>): (o: Outcome)
    requires |statuses| == |fs|
    ensures o.committed <==> fs != [] && dbCommits
    ensures !o.committed ==> o.geofences == 0
    ensures (radarKey.None? || radarKey == Some("")) ==> o.geofences == 0
    ensures o.committed && radarKey.Some? && radarKey.value != "" ==>
              o.geofences == SuccessCount(fs, statuses)
    ensures o.geofences <= WithCoordinates(fs)
  {
    if fs == [] || !dbCommits then Outcome(false, 0)
    else if radarKey.None? || radarKey.value == "" then Outcome(true, 0)
    else
      SuccessCountBound(fs, statuses);
      Outcome(true, SuccessCount(fs, statuses))
  }

  lemma SuccessCountBound(fs: seq<Fields>, statuses: seq<Option<int>>)
    requires |statuses| == |fs|
    ensures SuccessCount(fs, statuses) <= WithCoordinates(fs)
  {
    SuccessesBeforeBound(fs, statuses, |fs|);
  }

  lemma {:induction false} SuccessesBeforeBound(fs: seq<Fields>, statuses: seq<Option<int>>, n: nat)
    requires |statuses| == |fs| && n <= |fs|
    ensures SuccessesBefore(fs, statuses, n) <= WithCoordinatesBefore(fs, n)
  {
    if n > 0 {
      SuccessesBeforeBound(fs, statuses, n - 1);
    }
  }
}
