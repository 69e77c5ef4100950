/**
 * The frontend's collection proxy (frontend/assets/classes/Repository.js). Each record it hands
 * out carries an `id` equal to the record's current position in the backend's array.
 */
module ClientRepository {
  import opened Wrappers
  import FileStore

  /** A record as it travels between frontend and backend: its fields, and an optional `id` field. */
  datatype Record<T> = Record(body: T, id: Option<int>)

  /** The errors the proxy throws on a response that is not ok. */
  datatype ProxyError =
    | FetchFailed(endpoint: string)
    | AddFailed(endpoint: string)
    | UpdateFailed(endpoint: string, id: int)
    | DeleteFailed(endpoint: string, id: int)

  /** The lookup table of `_mapKey`. */
  const KnownEndpoints: map<string, string> :=
    map["ingredients" := "ingredients", "recipes" := "recipes", "calendar" := "calendar", "tags" := "tags"]

  /** `_mapKey`: the endpoint the table gives a key, or the key itself. Every key, known or not, names its own endpoint. */
  function MapKey(key: string): (endpoint: string)
    ensures endpoint == key
  {
    if key in KnownEndpoints && KnownEndpoints[key] != "" then KnownEndpoints[key] else key
  }

  /** The same fields, with `id` set (and any earlier `id` overridden). */
  function WithId<T>(r: Record<T>, id: int): (r': Record<T>)
    ensures r'.body == r.body && r'.id == Some(id)
  {
    Record(r.body, Some(id))
  }

  /** Each record with its `id` set to its position in the list. */
  function Decorate<T>(items: seq<Record<T>>): (r: seq<Record<T>>)
    ensures |r| == |items|
    ensures forall i :: 0 <= i < |r| ==> r[i] == WithId(items[i], i)
  {
    seq(|items|, i requires 0 <= i < |items| => WithId(items[i], i))
  }

  /** What `getAll` makes of a parsed response body: an absent body counts as empty, then each record is decorated. */
  function FromBody<T>(body: Option<seq<Record<T>>>): (r: seq<Record<T>>)
    ensures body.None? ==> r == []
    ensures body.Some? ==> |r| == |body.value|
    ensures body.Some? ==> forall i :: 0 <= i < |r| ==> r[i].body == body.value[i].body && r[i].id == Some(i)
  {
    match body
    case None => []
    case Some(items) => Decorate(items)
  }

  /** Every record of a decorated list has its position as `id`, so ids are distinct. */
  lemma DecoratedIdsDistinct<T>(items: seq<Record<T>>, i: int, j: int)
    requires 0 <= i < |items| && 0 <= j < |items| && i != j
    ensures Decorate(items)[i].id != Decorate(items)[j].id
  {
  }

  /** Decorating depends only on the stored fields: stored `id` values are all overridden. */
  lemma DecorateIgnoresStoredIds<T>(a: seq<Record<T>>, b: seq<Record<T>>)
    requires |a| == |b|
    requires forall i :: 0 <= i < |a| ==> a[i].body == b[i].body
    ensures Decorate(a) == Decorate(b)
  {
  }

  /** Decorating an already decorated list changes nothing. */
  lemma DecorateIdempotent<T>(items: seq<Record<T>>)
    ensures Decorate(Decorate(items)) == Decorate(items)
  {
  }

  /** After an append, the new record is read back last, with id `|items|`. */
  lemma DecorateAppend<T>(items: seq<Record<T>>, x: Record<T>)
    ensures Decorate(items + [x]) == Decorate(items) + [WithId(x, |items|)]
  {
  }

  /**
   * After deleting position `k`, the records before `k` keep their ids and every later record's
   * id drops by one: an id held from before the delete now names the next record.
   */
  lemma DecorateAfterDelete<T>(items: seq<Record<T>>, k: nat)
    requires k < |items|
    ensures |Decorate(FileStore.RemoveAt(items, k))| == |items| - 1
    ensures forall j :: 0 <= j < k ==> Decorate(FileStore.RemoveAt(items, k))[j] == Decorate(items)[j]
    ensures forall j :: k <= j < |items| - 1 ==>
              Decorate(FileStore.RemoveAt(items, k))[j] == WithId(Decorate(items)[j + 1], j)
  {
  }

  /** Writing a record back at its own position changes only that position of what is read back. */
  lemma DecorateAfterUpdate<T>(items: seq<Record<T>>, k: nat, x: Record<T>)
    requires k < |items|
    ensures Decorate(items[k := x]) == Decorate(items)[k := WithId(x, k)]
  {
  }

  /** The first record in the list whose `id` is `id`. */
  function FindById<T>(list: seq<Record<T>>, id: int): (r: Option<Record<T>>)
    ensures r.Some? ==> r.value.id == Some(id) && r.value in list
    ensures r.None? <==> forall k :: 0 <= k < |list| ==> list[k].id != Some(id)
    ensures r.Some? ==>
              exists k :: 0 <= k < |list| && list[k] == r.value && forall j :: 0 <= j < k ==> list[j].id != Some(id)
  {
    if list == [] then None
    else if list[0].id == Some(id) then Some(list[0])
    else FindById(list[1..], id)
  }

  /** In a decorated list, finding by id is indexing by position. */
  lemma FindByIdDecorated<T>(items: seq<Record<T>>, id: int)
    ensures FindById(Decorate(items), id) == if 0 <= id < |items| then Some(Decorate(items)[id]) else None
  {
    var list := Decorate(items);
    var r := FindById(list, id);
    if 0 <= id < |items| {
      assert list[id].id == Some(id);
      var k :| 0 <= k < |list| && list[k] == r.value;
      assert k == id;
    }
  }

  /** The client-side view of one collection, backed by the backend store it talks to. */
  class Repository<T> {
    const key: string
    /** The endpoint the proxy talks to, fixed by its key. */
    const endpoint: string := MapKey(key)
    /** The backend collection behind `endpoint`. */
    const backend: FileStore.Repository<Record<T>>
    /** The entity the backend's command layer builds from a POSTed body (and returns). */
    const create: Record<T> -> Record<T>

    /** `new Repository(key)`. */
    constructor (key: string, backend: FileStore.Repository<Record<T>>, create: Record<T> -> Record<T>)
      ensures this.key == key && endpoint == key
      ensures this.backend == backend && this.create == create
    {
      this.key := key;
      this.backend := backend;
      this.create := create;
    }

    /** `getAll`: the backend array, each record's `id` set to its position. */
    method GetAll(ok: bool) returns (r: Result<seq<Record<T>>, ProxyError>)
      ensures ok ==> r == Success(Decorate(backend.data))
      ensures ok ==> r.Success? && |r.value| == |backend.data|
      ensures ok ==> forall i :: 0 <= i < |r.value| ==> r.value[i] == WithId(backend.data[i], i)
      ensures !ok ==> r == Failure(FetchFailed(endpoint))
    {
      if !ok {
        return Failure(FetchFailed(endpoint));
      }
      var data := backend.GetAll();
      r := Success(FromBody(Some(data)));
    }

    /** `add`: POST the item, then fetch the list again and take its last position as the new id. */
    method Add(item: Record<T>, ok: bool) returns (r: Result<Record<T>, ProxyError>)
      modifies backend
      ensures ok ==> backend.data == old(backend.data) + [create(item)] && backend.Persisted()
      ensures ok ==> r == Success(WithId(create(item), |backend.data| - 1))
      ensures !ok ==> r == Failure(AddFailed(endpoint)) && unchanged(backend)
    {
      if !ok {
        return Failure(AddFailed(endpoint));
      }
      var created := create(item);
      backend.Add(created);
      var list := backend.GetAll();
      var idx := |list| - 1;
      r := Success(WithId(created, idx));
    }

    /** `update`: PUT the item at position `id`; the backend stores the body as sent. */
    method Update(id: int, item: Record<T>, ok: bool) returns (r: Result<bool, ProxyError>)
      requires ok ==> 0 <= id < |backend.data|
      modifies backend
      ensures ok ==> backend.data == old(backend.data)[id := item] && backend.Persisted()
      ensures ok ==> r == Success(true)
      ensures !ok ==> r == Failure(UpdateFailed(endpoint, id)) && unchanged(backend)
    {
      if !ok {
        return Failure(UpdateFailed(endpoint, id));
      }
      backend.Update(id, item);
      r := Success(true);
    }

    /** `delete`: DELETE position `id`. */
    method Delete(id: int, ok: bool) returns (r: Result<bool, ProxyError>)
      requires ok ==> 0 <= id < |backend.data|
      modifies backend
      ensures ok ==> backend.data == FileStore.RemoveAt(old(backend.data), id) && backend.Persisted()
      ensures ok ==> r == Success(true)
      ensures !ok ==> r == Failure(DeleteFailed(endpoint, id)) && unchanged(backend)
    {
      if !ok {
        return Failure(DeleteFailed(endpoint, id));
      }
      backend.Delete(id);
      r := Success(true);
    }
  }

  /** With a single writer, the id `add` infers is where a fresh `getAll` shows the added record. */
  method AddThenGetAll<T>(repo: Repository<T>, item: Record<T>)
    modifies repo.backend
  {
    var added := repo.Add(item, true);
    var all := repo.GetAll(true);
    var id := added.value.id.value;
    assert 0 <= id < |all.value| && all.value[id] == added.value;
  }
}
