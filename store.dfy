/**
  The link store the handler talks to: a table of links in a remote database,
  reached through four generated queries (list, create, get by id, update).

  The database is a value `Db`: the stored links keyed by id, the next id the
  table will hand out, and the log of every query sent to it. Whether the
  remote service answers a query or fails it is not something the handler
  controls: `Faults` gives the remote verdict on the n-th query sent over the
  connection, and the functions below consult it with n = |issued|.

  `Queries` is the connection object the handler holds; its methods are the
  imperative counterparts of `List`, `Create`, `Get` and `Update`.
 */
module Store {
  import opened Wrappers

  /** A persisted link record. */
  datatype Link = Link(id: int, url: string, commentary: string)

  /** Go's zero value of a link, which a failed fetch hands back. */
  const NoLink := Link(0, "", "")

  /** The error text a fetch of a missing row reports. */
  const ErrNoRows := "sql: no rows in result set"

  datatype CreateLinkParams = CreateLinkParams(url: string, commentary: string)

  datatype UpdateLinkParams = UpdateLinkParams(id: int, url: string, commentary: string)

  /** The statements the handler can send to the database. */
  datatype Query =
    | SelectAll
    | Insert(create: CreateLinkParams)
    | SelectById(id: int)
    | UpdateById(update: UpdateLinkParams)
  {
    predicate IsWrite() {
      Insert? || UpdateById?
    }
  }

  /** The remote service's verdict on the n-th query: None runs it, Some(e) fails it with error text e. */
  type Faults = nat -> Option<string>

  datatype Db = Db(links: map<int, Link>, nextId: int, issued: seq<Query>)
  {
    /**
      Ids are handed out from 1 upwards and nothing is ever deleted, so the
      stored ids are exactly 1 .. nextId - 1, and each record knows its own id.
     */
    ghost predicate Valid() {
      && 1 <= nextId
      && (forall id :: id in links <==> 1 <= id < nextId)
      && (forall id :: id in links ==> links[id].id == id)
    }

    /** Every stored link, in ascending id order. */
    function Rows(): (rows: seq<Link>)
      requires Valid()
      ensures |rows| == nextId - 1
      ensures forall k :: 0 <= k < |rows| ==> k + 1 in links && rows[k] == links[k + 1]
    {
      seq(nextId - 1, k requires 0 <= k < nextId - 1 => links[k + 1])
    }
  }

  /** The reply of one query: the database afterwards, the value Go returns, and its error. */
  datatype Answer<T> = Answer(db: Db, value: T, err: Option<string>)

  /** ListLinks: every stored link, or the remote error and a nil list. */
  function List(faults: Faults, db: Db): (a: Answer<seq<Link>>)
    requires db.Valid()
    ensures a.db == db.(issued := db.issued + [SelectAll])
    ensures a.err == faults(|db.issued|)
    ensures a.err.None? ==> a.value == db.Rows()
    ensures a.err.Some? ==> a.value == []
  {
    var sent := db.(issued := db.issued + [SelectAll]);
    match faults(|db.issued|)
    case Some(e) => Answer(sent, [], Some(e))
    case None => Answer(sent, db.Rows(), None)
  }

  /** CreateLink: inserts a record under a fresh id and returns that id. */
  function Create(faults: Faults, db: Db, params: CreateLinkParams): (a: Answer<int>)
    ensures a.db.issued == db.issued + [Insert(params)]
    ensures a.err == faults(|db.issued|)
    ensures a.err.Some? ==> a.db.links == db.links && a.db.nextId == db.nextId && a.value == 0
    ensures a.err.None? ==>
              && a.value == db.nextId
              && a.db.nextId == db.nextId + 1
              && a.db.links == db.links[a.value := Link(a.value, params.url, params.commentary)]
  {
    var sent := db.(issued := db.issued + [Insert(params)]);
    match faults(|db.issued|)
    case Some(e) => Answer(sent, 0, Some(e))
    case None =>
      var id := db.nextId;
      Answer(sent.(links := db.links[id := Link(id, params.url, params.commentary)], nextId := id + 1), id, None)
  }

  /** GetLink: the record stored under id; a missing row is an error, like a remote failure. */
  function Get(faults: Faults, db: Db, id: int): (a: Answer<Link>)
    ensures a.db == db.(issued := db.issued + [SelectById(id)])
    ensures a.err.None? <==> faults(|db.issued|).None? && id in db.links
    ensures a.err.None? ==> a.value == db.links[id]
    ensures a.err.Some? ==> a.value == NoLink
    ensures faults(|db.issued|).Some? ==> a.err == faults(|db.issued|)
  {
    var sent := db.(issued := db.issued + [SelectById(id)]);
    match faults(|db.issued|)
    case Some(e) => Answer(sent, NoLink, Some(e))
    case None =>
      if id in db.links then Answer(sent, db.links[id], None)
      else Answer(sent, NoLink, Some(ErrNoRows))
  }

  /** UpdateLink: replaces url and commentary of the record with the given id, if there is one. */
  function Update(faults: Faults, db: Db, params: UpdateLinkParams): (a: Answer<()>)
    ensures a.db.issued == db.issued + [UpdateById(params)]
    ensures a.db.nextId == db.nextId
    ensures a.err == faults(|db.issued|)
    ensures a.err.None? && params.id in db.links ==>
              a.db.links == db.links[params.id := Link(params.id, params.url, params.commentary)]
    ensures a.err.Some? || params.id !in db.links ==> a.db.links == db.links
  {
    var sent := db.(issued := db.issued + [UpdateById(params)]);
    match faults(|db.issued|)
    case Some(e) => Answer(sent, (), Some(e))
    case None =>
      if params.id in db.links
      then Answer(sent.(links := db.links[params.id := Link(params.id, params.url, params.commentary)]), (), None)
      else Answer(sent, (), None)
  }

  /** Counting helper: a set of ints that is exactly 1 .. n has n elements. */
  lemma {:induction false} RangeSize(ids: set<int>, n: nat)
    requires forall id :: id in ids <==> 1 <= id <= n
    ensures |ids| == n
  {
    if n > 0 {
      var rest := ids - {n};
      RangeSize(rest, n - 1);
      assert ids == rest + {n};
    } else {
      assert forall id :: id !in ids;
      assert ids == {};
    }
  }

  /** The listing holds every stored link exactly once, in ascending id order. */
  lemma ListHoldsEveryLinkOnce(db: Db)
    requires db.Valid()
    ensures |db.Rows()| == |db.links|
    ensures forall link :: link in db.Rows() <==> link in db.links.Values
    ensures forall j, k :: 0 <= j < k < |db.Rows()| ==> db.Rows()[j].id < db.Rows()[k].id
  {
    var rows := db.Rows();
    RangeSize(db.links.Keys, db.nextId - 1);
    forall link | link in db.links.Values
      ensures link in rows
    {
      var id :| id in db.links && db.links[id] == link;
      assert rows[id - 1] == link;
    }
  }

  /** A successful create stores a new record under an id that was not in use, and a fetch of that id returns it. */
  lemma CreateThenGet(faults: Faults, db: Db, params: CreateLinkParams)
    requires db.Valid()
    requires Create(faults, db, params).err.None?
    ensures var created := Create(faults, db, params);
      && created.db.Valid()
      && created.value !in db.links
      && |created.db.links| == |db.links| + 1
      && (faults(|created.db.issued|).None? ==>
            Get(faults, created.db, created.value).value == Link(created.value, params.url, params.commentary))
  {
  }

  /** A successful update keeps the record's id and makes a later fetch return the new fields. */
  lemma UpdateThenGet(faults: Faults, db: Db, params: UpdateLinkParams)
    requires db.Valid()
    requires params.id in db.links
    requires Update(faults, db, params).err.None?
    ensures var updated := Update(faults, db, params);
      && updated.db.Valid()
      && updated.db.links.Keys == db.links.Keys
      && (faults(|updated.db.issued|).None? ==>
            Get(faults, updated.db, params.id).value == Link(params.id, params.url, params.commentary))
  {
  }

  /** The connection the handler holds (models.Queries). */
  class Queries {
    var links: map<int, Link>
    var nextId: int
    var issued: seq<Query>
    const faults: Faults

    function State(): Db
      reads this
    {
      Db(links, nextId, issued)
    }

    ghost predicate Valid()
      reads this
    {
      State().Valid()
    }

    /**
      A new connection to the persisted table: it holds the links earlier
      requests stored, and nothing has been sent over it yet.
     */
    constructor (faults: Faults, table: Db)
      requires table.Valid() && table.issued == []
      ensures Valid() && this.faults == faults
      ensures State() == table
    {
      links := table.links;
      nextId := table.nextId;
      issued := [];
      this.faults := faults;
    }

    method ListLinks() returns (rows: seq<Link>, err: Option<string>)
      requires Valid()
      modifies this`issued
      ensures Answer(State(), rows, err) == List(faults, old(State()))
    {
      var verdict := faults(|issued|);
      issued := issued + [SelectAll];
      if verdict.Some? {
        rows, err := [], verdict;
      } else {
        rows, err := State().Rows(), None;
      }
    }

    method CreateLink(params: CreateLinkParams) returns (id: int, err: Option<string>)
      modifies this
      ensures Answer(State(), id, err) == Create(faults, old(State()), params)
    {
      var verdict := faults(|issued|);
      issued := issued + [Insert(params)];
      if verdict.Some? {
        id, err := 0, verdict;
        return;
      }
      id := nextId;
      links := links[id := Link(id, params.url, params.commentary)];
      nextId := nextId + 1;
      err := None;
    }

    method GetLink(id: int) returns (link: Link, err: Option<string>)
      modifies this`issued
      ensures Answer(State(), link, err) == Get(faults, old(State()), id)
    {
      var verdict := faults(|issued|);
      issued := issued + [SelectById(id)];
      if verdict.Some? {
        link, err := NoLink, verdict;
      } else if id in links {
        link, err := links[id], None;
      } else {
        link, err := NoLink, Some(ErrNoRows);
      }
    }

    method UpdateLink(params: UpdateLinkParams) returns (err: Option<string>)
      modifies this`issued, this`links
      ensures Answer(State(), (), err) == Update(faults, old(State()), params)
    {
      var verdict := faults(|issued|);
      issued := issued + [UpdateById(params)];
      if verdict.Some? {
        err := verdict;
        return;
      }
      if params.id in links {
        links := links[params.id := Link(params.id, params.url, params.commentary)];
      }
      err := None;
    }
  }
}
