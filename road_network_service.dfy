/**
 * The road-network ingest path: normalising `lanes` and `width`, turning one
 * GeoJSON Feature (RFC 7946, section 3.2) into a road edge, and uploading a
 * FeatureCollection (RFC 7946, section 3.3) as one network with its edges in a
 * single all-or-nothing transaction.
 */
module RoadNetworkService {
  import opened Wrappers
  import opened PyValues
  import opened Models
  import opened Store

  /** The property keys that become columns of their own. */
  const KnownFields: set<string> := {"name", "ref", "oneway", "length", "tunnel", "lanes", "width"}

  // ---------------------------------------------------------------- lanes

  /** `str` of every item, in order. */
  function Texts(items: seq<Value>, rt: Runtime): (r: seq<string>)
    ensures |r| == |items|
  {
    seq(|items|, k requires 0 <= k < |items| => Text(items[k], rt))
  }

  /** `normalize_lanes`: a list becomes its items' `str` forms joined by ",",
      None stays None, any other value becomes its `str` form. */
  function NormalizeLanes(value: Value, rt: Runtime): (r: Option<string>)
    ensures r.None? <==> value.Null?
    ensures value == List([]) ==> r == Some("")
    ensures !value.List? && !value.Null? ==> r == Some(Text(value, rt))
  {
    match value
    case List(items) => Some(Join(",", Texts(items, rt)))
    case Null => None
    case _ => Some(Text(value, rt))
  }

  /** The joined lanes string splits back into the items' `str` forms, whenever the
      list is not empty and no item's form contains a comma. */
  lemma NormalizeLanesSplitsBack(items: seq<Value>, rt: Runtime)
    requires |items| > 0
    requires forall k :: 0 <= k < |items| ==> ',' !in Text(items[k], rt)
    ensures Split(NormalizeLanes(List(items), rt).value, ',') == Texts(items, rt)
  {
    SplitJoin(',', Texts(items, rt));
  }

  /** A non-empty list of integer lane counts comes back, count by count, as
      decimal numerals: `[1, 2, 3]` gives "1,2,3". */
  lemma NormalizeLanesOfCounts(counts: seq<int>, rt: Runtime)
    requires |counts| > 0
    ensures var items := seq(|counts|, k requires 0 <= k < |counts| => Int(counts[k]));
      var parts := Split(NormalizeLanes(List(items), rt).value, ',');
      |parts| == |counts| && forall k :: 0 <= k < |counts| ==> ParseInt(parts[k]) == counts[k]
  {
    var items := seq(|counts|, k requires 0 <= k < |counts| => Int(counts[k]));
    forall k | 0 <= k < |items| ensures ',' !in Text(items[k], rt) {
      IntTextHasNoComma(counts[k]);
    }
    NormalizeLanesSplitsBack(items, rt);
    forall k | 0 <= k < |counts| ensures ParseInt(IntText(counts[k])) == counts[k] {
      IntTextRoundTrip(counts[k]);
    }
  }

  lemma NormalizeLanesExamples(rt: Runtime)
    ensures NormalizeLanes(List([Int(1), Int(2), Int(3)]), rt) == Some("1,2,3")
    ensures NormalizeLanes(Int(2), rt) == Some("2")
    ensures NormalizeLanes(List([]), rt) == Some("")
    ensures NormalizeLanes(Null, rt) == None
  {
    assert NatText(1) == "1" && NatText(2) == "2" && NatText(3) == "3";
    assert Texts([Int(1), Int(2), Int(3)], rt) == ["1", "2", "3"];
    assert Join(",", ["3"]) == "3";
    assert Join(",", ["2", "3"]) == "2,3";
    assert Join(",", ["1", "2", "3"]) == "1,2,3";
  }

  // ---------------------------------------------------------------- width

  /** `float` as a function on values, for use in a comprehension. */
  function FloatOf(rt: Runtime): Value -> Outcome<real> {
    v => ToFloat(v, rt)
  }

  /** `except (ValueError, TypeError): return None` around a conversion. */
  function CatchConversion<T>(o: Outcome<T>): Outcome<Option<T>> {
    match o
    case Returns(v) => Returns(Some(v))
    case Raises(e) => if e == ValueError || e == TypeError then Returns(None) else Raises(e)
  }

  /** True when `float(v)` would raise OverflowError: an integer beyond the float range. */
  predicate Overflows(v: Value, rt: Runtime) {
    v.Int? && rt.intToFloat(v.i).None?
  }

  /** `normalize_width`: a list converts element by element, all or nothing; a
      scalar becomes a one-element list; None, or a value `float` rejects with
      ValueError or TypeError, gives None.  Only an integer too large for a float
      escapes, as OverflowError, which the function does not catch. */
  function NormalizeWidth(value: Value, rt: Runtime): (r: Outcome<Option<seq<real>>>)
    ensures value.Null? ==> r == Returns(None)
    ensures r.Raises? ==> r.exc == OverflowError
    ensures r.Raises? && value.List? ==> exists k :: 0 <= k < |value.items| && Overflows(value.items[k], rt)
    ensures r.Raises? && !value.List? ==> Overflows(value, rt)
  {
    match value
    case List(items) =>
      var converted := Comprehension(items, FloatOf(rt));
      assert converted.Raises? ==> exists k :: 0 <= k < |items| && ToFloat(items[k], rt) == Raises(converted.exc);
      CatchConversion(converted)
    case Null => Returns(None)
    case _ =>
      CatchConversion(match ToFloat(value, rt) case Returns(x) => Returns([x]) case Raises(e) => Raises(e))
  }

  /** A list of widths converts element-wise, keeping length and order, exactly
      when every element converts; when no element overflows, one element that
      does not convert makes the whole result None. */
  lemma NormalizeWidthOfList(items: seq<Value>, rt: Runtime)
    ensures var r := NormalizeWidth(List(items), rt);
      && ((exists xs :: r == Returns(Some(xs))) <==> forall k :: 0 <= k < |items| ==> ToFloat(items[k], rt).Returns?)
      && (r.Returns? && r.value.Some? ==>
            |r.value.value| == |items| && forall k :: 0 <= k < |items| ==> ToFloat(items[k], rt) == Returns(r.value.value[k]))
      && ((forall k :: 0 <= k < |items| ==> !Overflows(items[k], rt)) ==>
            (r == Returns(None) <==> exists k :: 0 <= k < |items| && ToFloat(items[k], rt).Raises?))
  {
    var f := FloatOf(rt);
    var c := Comprehension(items, f);
    assert forall k :: 0 <= k < |items| ==> f(items[k]) == ToFloat(items[k], rt);
    if c.Raises? {
      var k :| 0 <= k < |items| && f(items[k]) == Raises(c.exc) && forall j :: 0 <= j < k ==> f(items[j]).Returns?;
      assert !Overflows(items[k], rt) ==> c.exc in {ValueError, TypeError};
    }
  }

  /** A scalar width becomes a one-element list when `float` accepts it, and None
      when `float` rejects it with ValueError or TypeError. */
  lemma NormalizeWidthOfScalar(value: Value, rt: Runtime)
    requires !value.List? && !value.Null?
    ensures ToFloat(value, rt).Returns? ==> NormalizeWidth(value, rt) == Returns(Some([ToFloat(value, rt).value]))
    ensures ToFloat(value, rt).Raises? && !Overflows(value, rt) ==> NormalizeWidth(value, rt) == Returns(None)
  {
  }

  // ---------------------------------------------------------------- one feature

  /** `feature.get("properties", {})`. */
  function PropertiesOf(feature: seq<Member>): Value {
    GetOr(feature, "properties", Object([]))
  }

  /** `create_road_edge`: the geometry is parsed first, then the known property
      keys fill their columns (`lanes` and `width` normalised, the others passed
      through), every other key goes to `extra_properties`, and the edge is
      current and tied to the given network and user. */
  function CreateRoadEdge(feature: Value, networkId: nat, userId: nat, rt: Runtime): (r: Outcome<RoadEdge>)
    ensures r.Returns? ==> r.value.isCurrent && r.value.networkId == networkId && r.value.userId == userId
    ensures r.Returns? ==> r.value.geometry.srid == Wgs84Srid && r.value.timestamp.None?
  {
    if !feature.Object? then Raises(AttributeError)
    else
      var geometry := Get(feature.members, "geometry");
      if !rt.shapeAccepts(geometry) then Raises(GeometryError)
      else
        var properties := PropertiesOf(feature.members);
        if !properties.Object? then Raises(AttributeError)
        else
          var props := properties.members;
          var lanes := NormalizeLanes(Get(props, "lanes"), rt);
          match NormalizeWidth(Get(props, "width"), rt)
          case Raises(e) => Raises(e)
          case Returns(width) =>
            Returns(NewRoadEdge(
              Geometry(geometry, Wgs84Srid), networkId, userId,
              name := Get(props, "name"),
              ref := Get(props, "ref"),
              lanes := lanes,
              oneway := Get(props, "oneway"),
              length := Get(props, "length"),
              width := width,
              tunnel := Get(props, "tunnel"),
              extraProperties := Without(props, KnownFields),
              isCurrent := true))
  }

  /** Building an edge fails exactly when the feature is not an object, its
      geometry is rejected, its "properties" member is present but not an object
      (a JSON null included), or its width overflows. */
  lemma CreateRoadEdgeFailsExactly(feature: Value, networkId: nat, userId: nat, rt: Runtime)
    ensures CreateRoadEdge(feature, networkId, userId, rt).Raises? <==>
      || !feature.Object?
      || !rt.shapeAccepts(Get(feature.members, "geometry"))
      || !PropertiesOf(feature.members).Object?
      || NormalizeWidth(Get(PropertiesOf(feature.members).members, "width"), rt).Raises?
  {
  }

  /** No property is lost or altered: `extra_properties` holds exactly the keys
      outside the known set, each with its original value, and no known key. */
  lemma ExtraPropertiesKeepUnknownKeys(feature: Value, networkId: nat, userId: nat, rt: Runtime, key: string)
    requires CreateRoadEdge(feature, networkId, userId, rt).Returns?
    ensures feature.Object? && PropertiesOf(feature.members).Object?
    ensures var props := PropertiesOf(feature.members).members;
      var extra := CreateRoadEdge(feature, networkId, userId, rt).value.extraProperties;
      && Keys(extra) == Keys(props) - KnownFields
      && Lookup(extra, key) == (if key in KnownFields then None else Lookup(props, key))
  {
    var props := PropertiesOf(feature.members).members;
    WithoutKeys(props, KnownFields);
    WithoutLookup(props, KnownFields, key);
  }

  /** The known keys land in their columns: `oneway`, `length` and the text
      attributes unchanged, `lanes` and `width` normalised, an absent key as NULL. */
  lemma KnownPropertiesFillColumns(feature: Value, networkId: nat, userId: nat, rt: Runtime)
    requires CreateRoadEdge(feature, networkId, userId, rt).Returns?
    ensures feature.Object? && PropertiesOf(feature.members).Object?
    ensures var props := PropertiesOf(feature.members).members;
      var e := CreateRoadEdge(feature, networkId, userId, rt).value;
      && e.name == Get(props, "name") && e.ref == Get(props, "ref") && e.tunnel == Get(props, "tunnel")
      && e.oneway == Get(props, "oneway") && e.length == Get(props, "length")
      && e.lanes == NormalizeLanes(Get(props, "lanes"), rt)
      && NormalizeWidth(Get(props, "width"), rt) == Returns(e.width)
      && e.geometry == Geometry(Get(feature.members, "geometry"), Wgs84Srid)
      && (forall k :: k in KnownFields && k !in Keys(props) ==> Get(props, k) == Null)
  {
  }

  /** A feature with no "properties" member is read as having an empty one. */
  lemma FeatureWithoutProperties(feature: Value, networkId: nat, userId: nat, rt: Runtime)
    requires feature.Object? && "properties" !in Keys(feature.members)
    requires rt.shapeAccepts(Get(feature.members, "geometry"))
    ensures var r := CreateRoadEdge(feature, networkId, userId, rt);
      && r.Returns?
      && r.value.name == r.value.ref == r.value.oneway == r.value.length == r.value.tunnel == Null
      && r.value.lanes.None? && r.value.width.None? && r.value.extraProperties == []
  {
  }

  /** As written, a feature whose "properties" member is JSON null, which section
      3.2 of RFC 7946 allows, fails with AttributeError even when its geometry is
      accepted: `feature.get("properties", {})` returns None, and None has no `get`. */
  lemma NullPropertiesRaise(feature: Value, networkId: nat, userId: nat, rt: Runtime)
    requires feature.Object? && Lookup(feature.members, "properties") == Some(Null)
    requires rt.shapeAccepts(Get(feature.members, "geometry"))
    ensures CreateRoadEdge(feature, networkId, userId, rt) == Raises(AttributeError)
  {
  }

  /** `create_road_edge` as RFC 7946 evidently wants it read: a null "properties"
      member stands for no properties, so the feature is built as if it had none. */
  function CreateRoadEdgeAsIntended(feature: Value, networkId: nat, userId: nat, rt: Runtime): (r: Outcome<RoadEdge>)
    ensures !(feature.Object? && Lookup(feature.members, "properties") == Some(Null)) ==>
      r == CreateRoadEdge(feature, networkId, userId, rt)
  {
    if feature.Object? && Lookup(feature.members, "properties") == Some(Null) then
      CreateRoadEdge(Object(Without(feature.members, {"properties"})), networkId, userId, rt)
    else
      CreateRoadEdge(feature, networkId, userId, rt)
  }

  /** Corrected, a feature with null properties and an accepted geometry becomes
      an edge on that geometry with every attribute NULL and no extra properties. */
  lemma NullPropertiesReadAsEmpty(feature: Value, networkId: nat, userId: nat, rt: Runtime)
    requires feature.Object? && Lookup(feature.members, "properties") == Some(Null)
    requires rt.shapeAccepts(Get(feature.members, "geometry"))
    ensures var r := CreateRoadEdgeAsIntended(feature, networkId, userId, rt);
      && r.Returns?
      && r.value.geometry == Geometry(Get(feature.members, "geometry"), Wgs84Srid)
      && r.value.isCurrent && r.value.networkId == networkId && r.value.userId == userId
      && r.value.name == r.value.ref == r.value.oneway == r.value.length == r.value.tunnel == Null
      && r.value.lanes.None? && r.value.width.None? && r.value.extraProperties == []
  {
    var stripped := Object(Without(feature.members, {"properties"}));
    WithoutKeys(feature.members, {"properties"});
    WithoutLookup(feature.members, {"properties"}, "geometry");
    FeatureWithoutProperties(stripped, networkId, userId, rt);
  }

  // ---------------------------------------------------------------- a whole file

  /** What the upload answers: the new network's key, or HTTP 400 with the
      exception that aborted it (its detail reads "Upload failed: ..."). */
  datatype UploadReply = Uploaded(message: string, networkId: nat) | UploadFailed(status: nat, cause: Exception)

  /** The network's name: the file's "name" when truthy, else "Unnamed Network". */
  function NetworkName(document: seq<Member>): (name: Value)
    ensures Truthy(name)
    ensures Truthy(Get(document, "name")) ==> name == Get(document, "name")
    ensures !Truthy(Get(document, "name")) ==> name == Str("Unnamed Network")
  {
    var given := Get(document, "name");
    if Truthy(given) then given else Str("Unnamed Network")
  }

  /** The timestamp the new network is given: the file's "timestamp" when present,
      else the current time.  A null "timestamp" sets the attribute to None, which
      the ORM leaves out of the INSERT on a column with a default, so the default
      applies: None here. */
  function NetworkTimestamp(document: seq<Member>, now: int): (ts: Option<Timestamp>)
    ensures "timestamp" !in Keys(document) ==> ts == Some(Instant(now))
    ensures "timestamp" in Keys(document) && Get(document, "timestamp") != Null ==> ts == Some(Literal(Get(document, "timestamp")))
    ensures "timestamp" in Keys(document) && Get(document, "timestamp") == Null ==> ts.None?
  {
    match Lookup(document, "timestamp")
    case Some(v) => if v == Null then None else Some(Literal(v))
    case None => Some(Instant(now))
  }

  /** The feature list's element expression, `create_road_edge(feature, network.id, current_user.id)`. */
  function EdgeMaker(networkId: nat, userId: nat, rt: Runtime): Value -> Outcome<RoadEdge> {
    feature => CreateRoadEdge(feature, networkId, userId, rt)
  }

  /** `upload_road_network` on the committed state `t`, for an authenticated
      `caller`: the reply and the committed state afterwards.  `document` is what
      `json.loads` made of the file (None when it raised), `now` the current time,
      `times` the defaults of the two timestamp columns, and `storeFails` says whether
      the database rejects the commit for a reason outside the model. */
  function Upload(t: Tables, caller: User, document: Option<Value>, now: int, times: ImportTimes,
                  rt: Runtime, storeFails: bool): (r: (UploadReply, Tables))
    requires caller.id.Some?
    ensures r.0.UploadFailed? ==> r.0.status == 400 && r.1 == t
    ensures r.0.Uploaded? ==> r.0.message == "Upload successful" && r.0.networkId == t.nextNetworkId
    ensures r.0.Uploaded? ==> |r.1.networks| == |t.networks| + 1 && |r.1.edges| >= |t.edges|
    ensures r.0.Uploaded? ==> r.1.users == t.users && r.1.networks[..|t.networks|] == t.networks
    ensures r.0.Uploaded? ==> r.1.edges[..|t.edges|] == t.edges
  {
    match document
    case None => (UploadFailed(400, JsonDecodeError), t)
    case Some(data) =>
      if !data.Object? then (UploadFailed(400, AttributeError), t)
      else
        var uid := caller.id.value;
        var network := RoadNetwork(None, NetworkName(data.members), NetworkTimestamp(data.members, now), uid);
        var nid := t.nextNetworkId;
        var t1 := InsertNetwork(t, network, times.network);
        match FeaturesOf(data)
        case Raises(e) => (UploadFailed(400, e), t)
        case Returns(features) =>
          match Comprehension(features, EdgeMaker(nid, uid, rt))
          case Raises(e) => (UploadFailed(400, e), t)
          case Returns(edges) =>
            var t2 := InsertEdges(t1, edges, times.edge);
            if storeFails || !Constraints(t2) then (UploadFailed(400, DatabaseError), t)
            else (Uploaded("Upload successful", nid), t2)
  }

  /** The features an upload iterates over, when the file is a JSON object. */
  function FeaturesOf(document: Value): Outcome<seq<Value>>
    requires document.Object?
  {
    Iterate(GetOr(document.members, "features", List([])))
  }

  /** An upload by an existing user succeeds exactly when the file is a JSON
      object, its "features" (default: none) can be iterated, every feature
      becomes an edge, and the database accepts the commit. */
  lemma UploadSucceedsExactly(t: Tables, caller: User, document: Option<Value>, now: int, times: ImportTimes,
                              rt: Runtime, storeFails: bool)
    requires WellFormed(t) && caller.id.Some? && HasUser(t.users, caller.id.value)
    ensures Upload(t, caller, document, now, times, rt, storeFails).0.Uploaded? <==>
      && document.Some? && document.value.Object?
      && FeaturesOf(document.value).Returns?
      && (forall k :: 0 <= k < |FeaturesOf(document.value).value| ==>
            CreateRoadEdge(FeaturesOf(document.value).value[k], t.nextNetworkId, caller.id.value, rt).Returns?)
      && !storeFails
  {
    if document.Some? && document.value.Object? && FeaturesOf(document.value).Returns? {
      var data := document.value;
      var features := FeaturesOf(data).value;
      var uid := caller.id.value;
      var f := EdgeMaker(t.nextNetworkId, uid, rt);
      var c := Comprehension(features, f);
      assert forall k :: 0 <= k < |features| ==> f(features[k]) == CreateRoadEdge(features[k], t.nextNetworkId, uid, rt);
      if c.Returns? {
        var network := RoadNetwork(None, NetworkName(data.members), NetworkTimestamp(data.members, now), uid);
        InsertNetworkWithEdges(t, network, c.value, times);
      }
    }
  }

  /** A successful upload adds one network, named and stamped from the file, and
      after the existing edges exactly one edge per feature, in feature order,
      each current, tied to the new network and the uploader, and stamped with
      the edge column's default (fixed at import), not the upload time.  A null
      "timestamp" gives the network its own column's default, a different instant. */
  lemma UploadedRows(t: Tables, caller: User, document: Option<Value>, now: int, times: ImportTimes,
                     rt: Runtime, storeFails: bool)
    requires caller.id.Some?
    requires Upload(t, caller, document, now, times, rt, storeFails).0.Uploaded?
    ensures document.Some? && document.value.Object? && FeaturesOf(document.value).Returns?
    ensures var t' := Upload(t, caller, document, now, times, rt, storeFails).1;
      var data := document.value.members;
      var features := FeaturesOf(document.value).value;
      var nid := t.nextNetworkId;
      && t'.networks == t.networks + [RoadNetwork(Some(nid), NetworkName(data), Some(TimestampDefault(NetworkTimestamp(data, now), times.network)), caller.id.value)]
      && t'.networks[|t.networks|].timestamp == Some(
           if "timestamp" !in Keys(data) then Instant(now)
           else if Get(data, "timestamp") == Null then Instant(times.network)
           else Literal(Get(data, "timestamp")))
      && |t'.edges| == |t.edges| + |features|
      && forall k :: 0 <= k < |features| ==>
           && CreateRoadEdge(features[k], nid, caller.id.value, rt).Returns?
           && t'.edges[|t.edges| + k] == CreateRoadEdge(features[k], nid, caller.id.value, rt).value.(timestamp := Some(Instant(times.edge)))
           && t'.edges[|t.edges| + k].networkId == nid
           && t'.edges[|t.edges| + k].userId == caller.id.value
           && t'.edges[|t.edges| + k].isCurrent
  {
    var data := document.value;
    var features := FeaturesOf(data).value;
    var f := EdgeMaker(t.nextNetworkId, caller.id.value, rt);
    var c := Comprehension(features, f);
    assert forall k :: 0 <= k < |features| ==> f(features[k]) == CreateRoadEdge(features[k], t.nextNetworkId, caller.id.value, rt);
    assert c.Returns?;
  }

  /** The upload time reaches only the network's own stamp: the same upload made
      at another time gives the same reply and the same edges, all stamped with
      the edge column's import-time default. */
  lemma UploadTimeOnlyStampsTheNetwork(t: Tables, caller: User, document: Option<Value>, now1: int, now2: int,
                                       times: ImportTimes, rt: Runtime, storeFails: bool)
    requires WellFormed(t) && caller.id.Some? && HasUser(t.users, caller.id.value)
    requires Upload(t, caller, document, now1, times, rt, storeFails).0.Uploaded?
    ensures var r1 := Upload(t, caller, document, now1, times, rt, storeFails);
      var r2 := Upload(t, caller, document, now2, times, rt, storeFails);
      && r2.0 == r1.0 && r2.1.users == r1.1.users && r2.1.edges == r1.1.edges
      && forall k :: |t.edges| <= k < |r1.1.edges| ==> r1.1.edges[k].timestamp == Some(Instant(times.edge))
  {
    UploadSucceedsExactly(t, caller, document, now1, times, rt, storeFails);
    UploadSucceedsExactly(t, caller, document, now2, times, rt, storeFails);
    UploadedRows(t, caller, document, now1, times, rt, storeFails);
    UploadedRows(t, caller, document, now2, times, rt, storeFails);
  }

  /** A file with no "features" member uploads a network with no edges. */
  lemma UploadWithoutFeatures(t: Tables, caller: User, data: seq<Member>, now: int, times: ImportTimes, rt: Runtime)
    requires WellFormed(t) && caller.id.Some? && HasUser(t.users, caller.id.value)
    requires "features" !in Keys(data)
    ensures var r := Upload(t, caller, Some(Object(data)), now, times, rt, false);
      r.0 == Uploaded("Upload successful", t.nextNetworkId) && r.1.edges == t.edges && |r.1.networks| == |t.networks| + 1
  {
    UploadSucceedsExactly(t, caller, Some(Object(data)), now, times, rt, false);
  }

  /** One feature that cannot become an edge sinks the whole batch: nothing of
      the upload, not even the network, is committed. */
  lemma OneBadFeatureSinksTheBatch(t: Tables, caller: User, document: Value, now: int, times: ImportTimes,
                                   rt: Runtime, storeFails: bool, bad: nat)
    requires caller.id.Some? && document.Object? && FeaturesOf(document).Returns?
    requires bad < |FeaturesOf(document).value|
    requires CreateRoadEdge(FeaturesOf(document).value[bad], t.nextNetworkId, caller.id.value, rt).Raises?
    ensures var r := Upload(t, caller, Some(document), now, times, rt, storeFails);
      r.0.UploadFailed? && r.1 == t
  {
    var features := FeaturesOf(document).value;
    var f := EdgeMaker(t.nextNetworkId, caller.id.value, rt);
    assert f(features[bad]).Raises?;
  }

  /** `upload_road_network` on a session: add the network and flush to learn its
      key, build one edge per feature, bulk-save them and commit; any exception
      rolls the session back. */
  method UploadRoadNetwork(db: Session, caller: User, document: Option<Value>, now: int, rt: Runtime, storeFails: bool)
    returns (reply: UploadReply)
    requires db.Valid() && db.tables == db.committed
    requires caller.id.Some? && HasUser(db.committed.users, caller.id.value)
    modifies db
    ensures db.Valid() && db.tables == db.committed
    ensures (reply, db.committed) == Upload(old(db.committed), caller, document, now, db.importTimes, rt, storeFails)
  {
    if document.None? {
      db.Rollback();
      return UploadFailed(400, JsonDecodeError);
    }
    var data := document.value;
    if !data.Object? {
      db.Rollback();
      return UploadFailed(400, AttributeError);
    }
    var uid := caller.id.value;
    var network := RoadNetwork(None, NetworkName(data.members), NetworkTimestamp(data.members, now), uid);
    var nid := db.AddNetworkAndFlush(network);
    var iterated := FeaturesOf(data);
    if iterated.Raises? {
      db.Rollback();
      return UploadFailed(400, iterated.exc);
    }
    var built := Comprehension(iterated.value, EdgeMaker(nid, uid, rt));
    if built.Raises? {
      db.Rollback();
      return UploadFailed(400, built.exc);
    }
    var edges := built.value;
    db.BulkSaveEdges(edges);
    var ok := db.Commit(storeFails);
    if !ok {
      db.Rollback();
      return UploadFailed(400, DatabaseError);
    }
    return Uploaded("Upload successful", nid);
  }
}
