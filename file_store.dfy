/**
 * The backend's flat-file collection store: one in-memory array per collection,
 * written back whole to its file after every change.
 */
module FileStore {

  /** What the backing file holds. */
  datatype Disk<T> =
    | Missing                 // there is no file at the path
    | Unreadable              // the file cannot be read, or its text is not valid JSON
    | Stored(items: seq<T>)   // the file holds this array

  /** The result of `_load`: the array the store starts with and the file afterwards. */
  datatype Loaded<T> = Loaded(data: seq<T>, file: Disk<T>)

  /**
   * `_load`: a missing file is first created holding `[]`; a file that cannot be read
   * or is not valid JSON yields `[]` and is left as it is; otherwise the stored array is loaded.
   */
  function Load<T>(disk: Disk<T>): (r: Loaded<T>)
    ensures disk.Stored? ==> r.data == disk.items
    ensures !disk.Stored? ==> r.data == []
    ensures r.file == if disk.Missing? then Stored([]) else disk
  {
    match disk
    case Missing => Loaded([], Stored([]))
    case Unreadable => Loaded([], Unreadable)
    case Stored(items) => Loaded(items, disk)
  }

  /** Loading a second time from the file the first load left reproduces the same state. */
  lemma LoadIdempotent<T>(disk: Disk<T>)
    ensures Load(Load(disk).file) == Load(disk)
  {
  }

  /** Reloading from a file written by `_save` yields exactly the saved array. */
  lemma SaveLoadRoundTrip<T>(data: seq<T>)
    ensures Load(Stored(data)).data == data
  {
  }

  /** The array after `splice(index, 1)`: the element at `index` removed, later ones shifted left. */
  function RemoveAt<T>(s: seq<T>, index: nat): (r: seq<T>)
    requires index < |s|
    ensures |r| == |s| - 1
    ensures forall j :: 0 <= j < index ==> r[j] == s[j]
    ensures forall j :: index <= j < |r| ==> r[j] == s[j + 1]
  {
    s[..index] + s[index + 1..]
  }

  class Repository<T> {
    const filename: string
    /** The in-memory collection. */
    var data: seq<T>
    /** The content of the backing file. */
    ghost var file: Disk<T>

    /** The file holds exactly the in-memory array. */
    ghost predicate Persisted()
      reads this
    {
      file == Stored(data)
    }

    /** `new Repository(filename)` over a file that holds `disk`. */
    constructor (filename: string, disk: Disk<T>)
      ensures this.filename == filename
      ensures data == Load(disk).data && file == Load(disk).file
      ensures disk.Missing? ==> data == [] && Persisted()
      ensures disk.Unreadable? ==> data == [] && file == Unreadable
    {
      this.filename := filename;
      var loaded := Load(disk);
      data := loaded.data;
      file := loaded.file;
    }

    /** `_save`: overwrite the whole file with the whole array. */
    method Save()
      modifies this
      ensures data == old(data) && Persisted()
      ensures Load(file).data == data
    {
      file := Stored(data);
    }

    /** `getAll`: the current array; nothing changes. */
    method GetAll() returns (r: seq<T>)
      ensures r == data
    {
      r := data;
    }

    /** `add`: append `item`, then save. */
    method Add(item: T)
      modifies this
      ensures data == old(data) + [item]
      ensures Persisted()
      ensures Load(file).data == data
    {
      data := data + [item];
      Save();
    }

    /** `update`: replace the element at `index`, then save. */
    method Update(index: nat, item: T)
      requires index < |data|
      modifies this
      ensures data == old(data)[index := item]
      ensures Persisted()
      ensures Load(file).data == data
    {
      data := data[index := item];
      Save();
    }

    /** `delete`: remove the element at `index` with `splice`, then save. */
    method Delete(index: nat)
      requires index < |data|
      modifies this
      ensures data == RemoveAt(old(data), index)
      ensures Persisted()
      ensures Load(file).data == data
    {
      data := RemoveAt(data, index);
      Save();
    }
  }

  /** Three recipes are added and the middle one deleted: the outer two remain, renumbered 0 and 1. */
  method DeleteMiddleOfThree<T>(a: T, b: T, c: T)
  {
    var store := new Repository("recipes.json", Missing);
    store.Add(a);
    store.Add(b);
    store.Add(c);
    store.Delete(1);
    var all := store.GetAll();
    assert all == [a, c];
    assert store.file == Stored([a, c]);
    assert Load(store.file).data == [a, c];
  }
}
