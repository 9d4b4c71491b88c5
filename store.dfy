/**
 * The database behind a SQLAlchemy session: the three tables, the constraints
 * the schema declares over them, and a session whose changes become visible to
 * later requests only when it commits.
 */
module Store {
  import opened Wrappers
  import opened PyValues
  import opened Models

  /** The rows of the three tables, in insertion order, and the next value of
      each key sequence. */
  datatype Tables = Tables(
    users: seq<User>,
    networks: seq<RoadNetwork>,
    edges: seq<RoadEdge>,
    nextUserId: nat,
    nextNetworkId: nat)

  predicate HasUser(users: seq<User>, id: nat) {
    exists k :: 0 <= k < |users| && users[k].id == Some(id)
  }

  predicate HasNetwork(networks: seq<RoadNetwork>, id: nat) {
    exists k :: 0 <= k < |networks| && networks[k].id == Some(id)
  }

  /** `users`: a key on every row, unique keys, unique `username`, unique `email`. */
  predicate UserRowsValid(users: seq<User>) {
    && (forall k :: 0 <= k < |users| ==> users[k].id.Some?)
    && (forall j, k :: 0 <= j < k < |users| ==>
          && users[j].id != users[k].id
          && users[j].username != users[k].username
          && users[j].email != users[k].email)
  }

  /** `road_networks`: keys, a non-null name and timestamp, and an owner that exists. */
  predicate NetworkRowsValid(t: Tables) {
    && (forall k :: 0 <= k < |t.networks| ==>
          && t.networks[k].id.Some?
          && t.networks[k].name != Null
          && t.networks[k].timestamp.Some?
          && HasUser(t.users, t.networks[k].userId))
    && (forall j, k :: 0 <= j < k < |t.networks| ==> t.networks[j].id != t.networks[k].id)
  }

  /** `road_edges`: a non-null timestamp, a geometry in SRID 4326, and a
      network and a user that exist. */
  predicate EdgeRowsValid(t: Tables) {
    forall k :: 0 <= k < |t.edges| ==>
      && t.edges[k].timestamp.Some?
      && t.edges[k].geometry.srid == Wgs84Srid
      && HasNetwork(t.networks, t.edges[k].networkId)
      && HasUser(t.users, t.edges[k].userId)
  }

  /** Everything the database enforces when a transaction commits. */
  predicate Constraints(t: Tables) {
    UserRowsValid(t.users) && NetworkRowsValid(t) && EdgeRowsValid(t)
  }

  /** Every key handed out so far lies below the sequence's next value. */
  predicate SequencesAhead(t: Tables) {
    && (forall k :: 0 <= k < |t.users| && t.users[k].id.Some? ==> t.users[k].id.value < t.nextUserId)
    && (forall k :: 0 <= k < |t.networks| && t.networks[k].id.Some? ==> t.networks[k].id.value < t.nextNetworkId)
  }

  /** A committed database state. */
  predicate WellFormed(t: Tables) {
    Constraints(t) && SequencesAhead(t)
  }

  // ---------------------------------------------------------------- row changes

  /** INSERT a user; the sequence supplies its key. */
  function InsertUser(t: Tables, u: User): Tables {
    t.(users := t.users + [u.(id := Some(t.nextUserId))], nextUserId := t.nextUserId + 1)
  }

  /** INSERT a network; the sequence supplies its key, the column default its
      timestamp when none was set. */
  function InsertNetwork(t: Tables, n: RoadNetwork, timeDefault: int): Tables {
    var row := n.(id := Some(t.nextNetworkId), timestamp := Some(TimestampDefault(n.timestamp, timeDefault)));
    t.(networks := t.networks + [row], nextNetworkId := t.nextNetworkId + 1)
  }

  /** An edge as it is stored: its timestamp filled in by the column default. */
  function StoredEdge(e: RoadEdge, timeDefault: int): RoadEdge {
    e.(timestamp := Some(TimestampDefault(e.timestamp, timeDefault)))
  }

  /** INSERT a batch of edges, in order. */
  function InsertEdges(t: Tables, es: seq<RoadEdge>, timeDefault: int): Tables {
    t.(edges := t.edges + seq(|es|, k requires 0 <= k < |es| => StoredEdge(es[k], timeDefault)))
  }

  /** DELETE the user in row `k`. */
  function RemoveUserAt(t: Tables, k: nat): Tables
    requires k < |t.users|
  {
    t.(users := t.users[..k] + t.users[k + 1..])
  }

  /** The edges that do not belong to network `id`, in order. */
  function EdgesNotOf(edges: seq<RoadEdge>, id: nat): (r: seq<RoadEdge>)
    ensures forall e :: e in r <==> e in edges && e.networkId != id
  {
    if edges == [] then []
    else if edges[0].networkId == id then EdgesNotOf(edges[1..], id)
    else [edges[0]] + EdgesNotOf(edges[1..], id)
  }

  /** DELETE the network in row `k`; its edges go with it (cascade "all, delete-orphan"). */
  function DeleteNetworkAt(t: Tables, k: nat): Tables
    requires k < |t.networks| && t.networks[k].id.Some?
  {
    t.(networks := t.networks[..k] + t.networks[k + 1..],
       edges := EdgesNotOf(t.edges, t.networks[k].id.value))
  }

  // ---------------------------------------------------------------- constraint lemmas

  /** A new user is accepted exactly when neither its username nor its email is
      already taken; the other constraints are unaffected. */
  lemma InsertUserConstraints(t: Tables, u: User)
    requires WellFormed(t)
    ensures SequencesAhead(InsertUser(t, u))
    ensures Constraints(InsertUser(t, u)) <==>
      forall k :: 0 <= k < |t.users| ==> t.users[k].username != u.username && t.users[k].email != u.email
  {
    var t' := InsertUser(t, u);
    var n := |t.users|;
    forall id: nat | HasUser(t.users, id) ensures HasUser(t'.users, id) {
      var k :| 0 <= k < n && t.users[k].id == Some(id);
      assert t'.users[k] == t.users[k];
    }
    if forall k :: 0 <= k < n ==> t.users[k].username != u.username && t.users[k].email != u.email {
      assert UserRowsValid(t'.users) by {
        forall j, k | 0 <= j < k < |t'.users|
          ensures t'.users[j].id != t'.users[k].id
        {
          if k == n {
            assert t.users[j].id.value < t.nextUserId;
          }
        }
      }
      assert Constraints(t');
    } else {
      var k :| 0 <= k < n && !(t.users[k].username != u.username && t.users[k].email != u.email);
      assert t'.users[k] == t.users[k] && t'.users[n].username == u.username && t'.users[n].email == u.email;
      assert !UserRowsValid(t'.users);
    }
  }

  /** Removing row `k` of a table with unique keys removes exactly that row's key. */
  lemma RemovedUserPresence(users: seq<User>, k: nat, id: nat)
    requires UserRowsValid(users) && k < |users|
    ensures HasUser(users[..k] + users[k + 1..], id) <==> HasUser(users, id) && users[k].id != Some(id)
  {
    var rest := users[..k] + users[k + 1..];
    if HasUser(users, id) && users[k].id != Some(id) {
      var j :| 0 <= j < |users| && users[j].id == Some(id);
      if j < k { assert rest[j] == users[j]; } else { assert rest[j - 1] == users[j]; }
    }
    if HasUser(rest, id) {
      var j :| 0 <= j < |rest| && rest[j].id == Some(id);
      var j0 := if j < k then j else j + 1;
      assert rest[j] == users[j0] && j0 != k;
    }
  }

  lemma RemovedUserRowsValid(users: seq<User>, k: nat)
    requires UserRowsValid(users) && k < |users|
    ensures UserRowsValid(users[..k] + users[k + 1..])
  {
    var rest := users[..k] + users[k + 1..];
    forall a, b | 0 <= a < b < |rest|
      ensures rest[a].id != rest[b].id && rest[a].username != rest[b].username && rest[a].email != rest[b].email
    {
      var a0 := if a < k then a else a + 1;
      var b0 := if b < k then b else b + 1;
      assert rest[a] == users[a0] && rest[b] == users[b0] && a0 < b0;
    }
  }

  /** Deleting a user is accepted exactly when no network and no edge refers to it:
      the relationships to `road_networks` and `road_edges` have no delete cascade,
      so the session sets the referencing rows' `user_id` to NULL, which their
      NOT NULL constraint rejects. */
  lemma RemoveUserConstraints(t: Tables, k: nat)
    requires WellFormed(t) && k < |t.users|
    ensures SequencesAhead(RemoveUserAt(t, k))
    ensures Constraints(RemoveUserAt(t, k)) <==>
      && (forall j :: 0 <= j < |t.networks| ==> Some(t.networks[j].userId) != t.users[k].id)
      && (forall j :: 0 <= j < |t.edges| ==> Some(t.edges[j].userId) != t.users[k].id)
  {
    var t' := RemoveUserAt(t, k);
    RemovedUserRowsValid(t.users, k);
    forall j | 0 <= j < |t.networks|
      ensures HasUser(t'.users, t.networks[j].userId) <==> Some(t.networks[j].userId) != t.users[k].id
    {
      RemovedUserPresence(t.users, k, t.networks[j].userId);
    }
    forall j | 0 <= j < |t.edges|
      ensures HasUser(t'.users, t.edges[j].userId) <==> Some(t.edges[j].userId) != t.users[k].id
    {
      RemovedUserPresence(t.users, k, t.edges[j].userId);
    }
    forall a | 0 <= a < |t'.users| && t'.users[a].id.Some?
      ensures t'.users[a].id.value < t'.nextUserId
    {
      assert t'.users[a] == t.users[if a < k then a else a + 1];
    }
  }

  /** A network inserted for an existing owner, followed by edges that point at
      it and at an existing user, leaves a well-formed database. */
  lemma InsertNetworkWithEdges(t: Tables, n: RoadNetwork, es: seq<RoadEdge>, times: ImportTimes)
    requires WellFormed(t)
    requires n.name != Null && HasUser(t.users, n.userId)
    requires forall k :: 0 <= k < |es| ==>
      es[k].networkId == t.nextNetworkId && HasUser(t.users, es[k].userId) && es[k].geometry.srid == Wgs84Srid
    ensures WellFormed(InsertEdges(InsertNetwork(t, n, times.network), es, times.edge))
  {
    var t1 := InsertNetwork(t, n, times.network);
    var t2 := InsertEdges(t1, es, times.edge);
    var m := |t.networks|;
    assert t1.networks[m].id == Some(t.nextNetworkId);
    assert HasNetwork(t1.networks, t.nextNetworkId);
    forall id: nat | HasNetwork(t.networks, id) ensures HasNetwork(t1.networks, id) {
      var k :| 0 <= k < m && t.networks[k].id == Some(id);
      assert t1.networks[k] == t.networks[k];
    }
    assert NetworkRowsValid(t1) by {
      forall j, k | 0 <= j < k < |t1.networks|
        ensures t1.networks[j].id != t1.networks[k].id
      {
        if k == m {
          assert t.networks[j].id.value < t.nextNetworkId;
        }
      }
    }
    assert EdgeRowsValid(t2) by {
      forall k | 0 <= k < |t2.edges|
        ensures t2.edges[k].timestamp.Some? && t2.edges[k].geometry.srid == Wgs84Srid
        ensures HasNetwork(t2.networks, t2.edges[k].networkId) && HasUser(t2.users, t2.edges[k].userId)
      {
        if k >= |t.edges| {
          assert t2.edges[k] == StoredEdge(es[k - |t.edges|], times.edge);
        }
      }
    }
  }

  /** Removing row `k` of a table with unique keys removes exactly that row's key. */
  lemma RemovedNetworkPresence(networks: seq<RoadNetwork>, k: nat, id: nat)
    requires k < |networks|
    requires forall a, b :: 0 <= a < b < |networks| ==> networks[a].id != networks[b].id
    ensures HasNetwork(networks[..k] + networks[k + 1..], id) <==> HasNetwork(networks, id) && networks[k].id != Some(id)
  {
    var rest := networks[..k] + networks[k + 1..];
    if HasNetwork(networks, id) && networks[k].id != Some(id) {
      var j :| 0 <= j < |networks| && networks[j].id == Some(id);
      if j < k { assert rest[j] == networks[j]; } else { assert rest[j - 1] == networks[j]; }
    }
    if HasNetwork(rest, id) {
      var j :| 0 <= j < |rest| && rest[j].id == Some(id);
      var j0 := if j < k then j else j + 1;
      assert rest[j] == networks[j0] && j0 != k;
    }
  }

  lemma CascadeNetworkRows(t: Tables, k: nat)
    requires WellFormed(t) && k < |t.networks|
    ensures t.networks[k].id.Some?
    ensures NetworkRowsValid(DeleteNetworkAt(t, k)) && SequencesAhead(DeleteNetworkAt(t, k))
  {
    var t' := DeleteNetworkAt(t, k);
    forall a, b | 0 <= a < b < |t'.networks|
      ensures t'.networks[a].id != t'.networks[b].id
    {
      var a0 := if a < k then a else a + 1;
      var b0 := if b < k then b else b + 1;
      assert t'.networks[a] == t.networks[a0] && t'.networks[b] == t.networks[b0] && a0 < b0;
    }
    forall a | 0 <= a < |t'.networks|
      ensures t'.networks[a].id.Some? && t'.networks[a].timestamp.Some? && HasUser(t'.users, t'.networks[a].userId)
      ensures t'.networks[a].id.value < t'.nextNetworkId
    {
      assert t'.networks[a] == t.networks[if a < k then a else a + 1];
    }
  }

  /** Deleting a network removes it and exactly its edges, and keeps the database well-formed. */
  lemma CascadeDelete(t: Tables, k: nat)
    requires WellFormed(t) && k < |t.networks|
    ensures t.networks[k].id.Some?
    ensures var t' := DeleteNetworkAt(t, k);
      && WellFormed(t')
      && !HasNetwork(t'.networks, t.networks[k].id.value)
      && (forall e :: e in t'.edges <==> e in t.edges && e.networkId != t.networks[k].id.value)
  {
    var t' := DeleteNetworkAt(t, k);
    var gone := t.networks[k].id.value;
    CascadeNetworkRows(t, k);
    RemovedNetworkPresence(t.networks, k, gone);
    forall j | 0 <= j < |t'.edges|
      ensures HasNetwork(t'.networks, t'.edges[j].networkId)
      ensures t'.edges[j].timestamp.Some? && t'.edges[j].geometry.srid == Wgs84Srid && HasUser(t'.users, t'.edges[j].userId)
    {
      var e := t'.edges[j];
      assert e in t.edges;
      var i :| 0 <= i < |t.edges| && t.edges[i] == e;
      RemovedNetworkPresence(t.networks, k, e.networkId);
    }
  }

  // ---------------------------------------------------------------- the session

  /** A database session.  `tables` is what queries inside the open transaction
      see; `committed` is what the database holds, and what `rollback` returns to.
      `importTimes` are the defaults of the two timestamp columns, fixed when the
      schema module was imported. */
  class Session {
    var tables: Tables
    var committed: Tables
    const importTimes: ImportTimes

    ghost predicate Valid()
      reads this
    {
      WellFormed(committed) && SequencesAhead(tables)
    }

    /** A fresh session on a committed database, with no pending changes. */
    constructor (t: Tables, importTimes: ImportTimes)
      requires WellFormed(t)
      ensures Valid() && tables == t && committed == t && this.importTimes == importTimes
    {
      tables := t;
      committed := t;
      this.importTimes := importTimes;
    }

    /** `db.add(network); db.flush()`: the row is inserted inside the transaction and gets its key. */
    method AddNetworkAndFlush(n: RoadNetwork) returns (id: nat)
      requires Valid()
      modifies this`tables
      ensures Valid() && committed == old(committed)
      ensures id == old(tables).nextNetworkId
      ensures tables == InsertNetwork(old(tables), n, importTimes.network)
    {
      id := tables.nextNetworkId;
      tables := InsertNetwork(tables, n, importTimes.network);
    }

    /** `db.bulk_save_objects(edges)`. */
    method BulkSaveEdges(es: seq<RoadEdge>)
      requires Valid()
      modifies this`tables
      ensures Valid() && committed == old(committed)
      ensures tables == InsertEdges(old(tables), es, importTimes.edge)
    {
      tables := InsertEdges(tables, es, importTimes.edge);
    }

    /** `db.add(user)`, flushed at commit. */
    method AddUser(u: User)
      requires Valid()
      modifies this`tables
      ensures Valid() && committed == old(committed)
      ensures tables == InsertUser(old(tables), u)
    {
      tables := InsertUser(tables, u);
    }

    /** `db.delete(user)` for the user in row `k`. */
    method DeleteUserAt(k: nat)
      requires Valid() && k < |tables.users|
      modifies this`tables
      ensures Valid() && committed == old(committed)
      ensures tables == RemoveUserAt(old(tables), k)
    {
      tables := RemoveUserAt(tables, k);
    }

    /** `db.delete(network)` for the network in row `k`, cascading to its edges. */
    method DeleteNetwork(k: nat)
      requires Valid() && k < |tables.networks| && tables.networks[k].id.Some?
      modifies this`tables
      ensures Valid() && committed == old(committed)
      ensures tables == DeleteNetworkAt(old(tables), k)
    {
      tables := DeleteNetworkAt(tables, k);
    }

    /** `db.commit()`: succeeds when the pending state meets every constraint and the
        database does not fail for a reason outside the model (`storeFails`).  On
        failure nothing is committed and the pending changes stay in the session. */
    method Commit(storeFails: bool) returns (ok: bool)
      requires Valid()
      modifies this`committed
      ensures Valid() && tables == old(tables)
      ensures ok <==> !storeFails && Constraints(tables)
      ensures committed == if ok then tables else old(committed)
    {
      ok := !storeFails && Constraints(tables);
      if ok {
        committed := tables;
      }
    }

    /** `db.rollback()`: the pending changes are discarded. */
    method Rollback()
      requires Valid()
      modifies this`tables
      ensures Valid() && committed == old(committed)
      ensures tables == committed
    {
      tables := committed;
    }
  }
}
