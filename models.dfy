/**
 * The record schema: users, road networks and road edges, with the column
 * defaults the schema declares.  Table-wide rules (unique columns, foreign keys,
 * cascade) are stated over whole tables in module Store.
 *
 * A record's `id` is None until the session flushes it and the database's
 * sequence hands out a key, as on an ORM object before `flush`.
 */
module Models {
  import opened Wrappers
  import opened PyValues

  /** The four user roles. */
  datatype Role = ADMIN | MODERATOR | USER | GUEST

  /** The string value of each role (the enum derives from `str`). */
  function RoleValue(r: Role): string {
    match r
    case ADMIN => "ADMIN"
    case MODERATOR => "MODERATOR"
    case USER => "USER"
    case GUEST => "GUEST"
  }

  /** The role whose value is `s`, if any: `UserRolesOptions(s)`. */
  function ParseRole(s: string): (r: Option<Role>)
    ensures r.Some? ==> RoleValue(r.value) == s
  {
    if s == "ADMIN" then Some(ADMIN)
    else if s == "MODERATOR" then Some(MODERATOR)
    else if s == "USER" then Some(USER)
    else if s == "GUEST" then Some(GUEST)
    else None
  }

  /** The roles are exactly the four values, each with its own name. */
  lemma RolesAreExactlyFour(r: Role, s: string)
    ensures ParseRole(RoleValue(r)) == Some(r)
    ensures ParseRole(s).Some? <==> s in {"ADMIN", "MODERATOR", "USER", "GUEST"}
  {
  }

  /** The `role` column's default. */
  const DefaultRole: Role := USER

  datatype User = User(
    id: Option<nat>,
    username: string,
    email: string,
    hashedPassword: string,
    role: Role)

  /** `User(...)`: a new, unsaved user; the role defaults to USER. */
  function NewUser(username: string, email: string, hashedPassword: string, role: Role := DefaultRole): (u: User)
    ensures u.id.None?
  {
    User(None, username, email, hashedPassword, role)
  }

  lemma NewUserDefaultRole(username: string, email: string, hashedPassword: string)
    ensures NewUser(username, email, hashedPassword).role == USER
  {
  }

  /** The spatial reference every stored geometry carries: WGS 84, EPSG code 4326. */
  const Wgs84Srid: int := 4326

  /** A stored geometry: the GeoJSON geometry it was built from, tagged with its SRID. */
  datatype Geometry = Geometry(shape: Value, srid: int)

  /** A value for a timestamp column: an instant (seconds since the epoch, UTC),
      or a value taken verbatim from an uploaded file, which the database converts. */
  datatype Timestamp = Instant(seconds: int) | Literal(v: Value)

  /** The defaults of the two `timestamp` columns.  Each is its own
      `datetime.now(UTC)`, evaluated once in its class body when the module is
      imported: `network` in `RoadNetwork`'s, `edge` in `RoadEdge`'s, which runs
      later, so the two are separate instants. */
  datatype ImportTimes = ImportTimes(network: int, edge: int)

  /** A timestamp column's value on insert: the one set, else the column's default instant. */
  function TimestampDefault(given: Option<Timestamp>, default: int): Timestamp {
    given.GetOr(Instant(default))
  }

  datatype RoadNetwork = RoadNetwork(
    id: Option<nat>,
    name: Value,                     // a String column; the model keeps the value it was given
    timestamp: Option<Timestamp>,    // None: not set, so the column default applies on insert
    userId: nat)

  /** One road edge.  `name`, `ref`, `oneway`, `length` and `tunnel` hold what the
      feature carried (Null where absent); `lanes` and `width` are normalised. */
  datatype RoadEdge = RoadEdge(
    name: Value,
    ref: Value,
    lanes: Option<string>,
    oneway: Value,
    length: Value,
    width: Option<seq<real>>,
    tunnel: Value,
    extraProperties: seq<Member>,
    geometry: Geometry,
    isCurrent: bool,
    timestamp: Option<Timestamp>,
    networkId: nat,
    userId: nat)

  /** `RoadEdge(...)` with only the required columns given: every optional
      attribute is NULL, `extra_properties` is an empty dict and `is_current` is True. */
  function NewRoadEdge(
    geometry: Geometry, networkId: nat, userId: nat,
    name: Value := Null, ref: Value := Null, lanes: Option<string> := None,
    oneway: Value := Null, length: Value := Null, width: Option<seq<real>> := None,
    tunnel: Value := Null, extraProperties: seq<Member> := [], isCurrent: bool := true): (e: RoadEdge)
    ensures e.timestamp.None?
    ensures e.geometry == geometry && e.networkId == networkId && e.userId == userId
  {
    RoadEdge(name, ref, lanes, oneway, length, width, tunnel, extraProperties,
             geometry, isCurrent, None, networkId, userId)
  }

  lemma EdgeColumnDefaults(geometry: Geometry, networkId: nat, userId: nat)
    ensures var e := NewRoadEdge(geometry, networkId, userId);
      && e.isCurrent && e.extraProperties == []
      && e.name == e.ref == e.oneway == e.length == e.tunnel == Null
      && e.lanes.None? && e.width.None?
  {
  }
}
