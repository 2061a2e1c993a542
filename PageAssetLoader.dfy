/** The loader's table of Addressables handles, keyed by asset key. The Addressables and
    Resources calls are outside this model: what `LoadAssetAsync` and the awaited task do is
    given to `LoadAsync` as a `LoadAttempt`, what `Resources.Load` returns as `resource`, and
    every `Addressables.Release` call is appended to the loader's `released` log. */
module AssetLoader {
  import opened Wrappers

  /** `AsyncOperationStatus`; `Incomplete` is its `None`. */
  datatype OperationStatus = Incomplete | Succeeded | Failed

  /** A loaded asset, compared by identity only. */
  datatype Asset = Asset(id: nat)

  /** An `AsyncOperationHandle`: an identity, its status and its result (null when it has none). */
  datatype Handle = Handle(id: nat, status: OperationStatus, result: Option<Asset>)

  /** How a started load ends when its task is awaited: it succeeds with a result
      (possibly null), it fails and the task gives null, or awaiting it throws. */
  datatype Await = Succeeds(value: Option<Asset>) | Fails | Throws

  /** What the `try` block's Addressables calls do: `LoadAssetAsync` throws at once, or it
      starts the operation `handleId`, whose task is then awaited. */
  datatype LoadAttempt = StartThrows | Started(handleId: nat, awaited: Await)

  /** The stored handle of operation `id` once its task has been awaited: the handle is
      the live operation, so its status and result are those the operation ended with. */
  function Settled(id: nat, awaited: Await): (h: Handle)
    ensures h.id == id
    ensures h.status == Succeeded <==> awaited.Succeeds?
    ensures h.status != Incomplete
    ensures h.result == (if awaited.Succeeds? then awaited.value else None)
  {
    if awaited.Succeeds? then Handle(id, Succeeded, awaited.value) else Handle(id, Failed, None)
  }

  /** The handles stored under the keys `ks`, in that order. */
  function Values(m: map<string, Handle>, ks: seq<string>): (r: seq<Handle>)
    requires forall i :: 0 <= i < |ks| ==> ks[i] in m
    ensures |r| == |ks|
    ensures forall i :: 0 <= i < |ks| ==> r[i] == m[ks[i]]
  {
    if ks == [] then [] else [m[ks[0]]] + Values(m, ks[1..])
  }

  /** Whether `ks` lists every key of `keys` exactly once. */
  predicate Enumerates(ks: seq<string>, keys: set<string>) {
    && (forall i, j :: 0 <= i < j < |ks| ==> ks[i] != ks[j])
    && (forall i :: 0 <= i < |ks| ==> ks[i] in keys)
    && (forall k :: k in keys ==> k in ks)
  }

  /** An enumeration of a set has one entry per element. */
  lemma {:induction false} EnumerationSize(ks: seq<string>, keys: set<string>)
    requires Enumerates(ks, keys)
    ensures |ks| == |keys|
    decreases |ks|
  {
    if ks != [] {
      var last := ks[|ks| - 1];
      var rest := ks[..|ks| - 1];
      assert Enumerates(rest, keys - {last}) by {
        forall k | k in keys - {last} ensures k in rest {
          var i :| 0 <= i < |ks| && ks[i] == k;
          assert i != |ks| - 1;
        }
      }
      EnumerationSize(rest, keys - {last});
    } else {
      assert forall k :: k !in keys;
      assert keys == {};
    }
  }

  /** The table after `Release(key)`: the key's entry removed, every other entry kept. */
  function Without(m: map<string, Handle>, key: string): (r: map<string, Handle>)
    ensures key !in r
    ensures forall k :: k != key ==> (k in r <==> k in m)
    ensures forall k :: k in r ==> r[k] == m[k]
  {
    map k | k in m && k != key :: m[k]
  }

  class PageAssetLoader {
    /** `_addressableHandles`. */
    var handles: map<string, Handle>
    /** The handles passed to `Addressables.Release`, oldest first. */
    var released: seq<Handle>

    constructor ()
      ensures handles == map[] && released == []
    {
      handles := map[];
      released := [];
    }

    /** `LoadAsync<T>(key)`: reuse a stored handle that has succeeded; otherwise start a load,
        store its handle under the key (replacing any older one) and return what the task
        gives; when starting or awaiting throws, fall back to `resource`. */
    method LoadAsync(key: string, attempt: LoadAttempt, resource: Option<Asset>) returns (r: Option<Asset>)
      modifies this`handles
      ensures old(key in handles && handles[key].status == Succeeded) ==>
                r == old(handles[key].result) && handles == old(handles)
      ensures !old(key in handles && handles[key].status == Succeeded) ==>
                (attempt.StartThrows? ==> handles == old(handles) && r == resource)
                && (attempt.Started? ==>
                      handles == old(handles)[key := Settled(attempt.handleId, attempt.awaited)]
                      && r == match attempt.awaited
                              case Succeeds(value) => value
                              case Fails => None
                              case Throws => resource)
    {
      if key in handles && handles[key].status == Succeeded {
        return handles[key].result;
      }
      if attempt.Started? {
        handles := handles[key := Settled(attempt.handleId, attempt.awaited)];
        match attempt.awaited
        case Succeeds(value) => return value;
        case Fails => return None;
        case Throws =>
      }
      r := resource;
    }

    /** A load that succeeds is reused: loading the same key again returns the same result,
        whatever a second attempt would do, and leaves the table as the first load left it. */
    method LoadTwice(key: string, id: nat, value: Option<Asset>, second: LoadAttempt,
                     resource: Option<Asset>, resource': Option<Asset>)
      returns (first: Option<Asset>, again: Option<Asset>)
      modifies this`handles
      ensures old(key in handles && handles[key].status == Succeeded) ==> first == again == old(handles[key].result)
      ensures !old(key in handles && handles[key].status == Succeeded) ==> first == again == value
      ensures key in handles && handles[key].status == Succeeded
    {
      first := LoadAsync(key, Started(id, Succeeds(value)), resource);
      again := LoadAsync(key, second, resource');
    }

    /** `Release(key)`: release and forget the key's handle; nothing at all for an absent key. */
    method Release(key: string)
      modifies this
      ensures old(key in handles) ==>
                handles == Without(old(handles), key) && released == old(released) + [old(handles[key])]
      ensures old(key !in handles) ==> handles == old(handles) && released == old(released)
    {
      if key in handles {
        released := released + [handles[key]];
        handles := Without(handles, key);
      }
    }

    /** `ReleaseAll`: release every stored handle once, in some order of the keys, then clear
        the table. `order` is the order the `foreach` visits the keys in. */
    method ReleaseAll() returns (ghost order: seq<string>)
      modifies this
      ensures Enumerates(order, old(handles).Keys)
      ensures |order| == |old(handles)|
      ensures released == old(released) + Values(old(handles), order)
      ensures handles == map[]
    {
      var remaining := handles.Keys;
      order := [];
      while remaining != {}
        invariant handles == old(handles)
        invariant remaining <= handles.Keys
        invariant Enumerates(order, handles.Keys - remaining)
        invariant released == old(released) + Values(handles, order)
        decreases remaining
      {
        var k :| k in remaining;
        released := released + [handles[k]];
        ghost var before := order;
        order := order + [k];
        assert Values(handles, order) == Values(handles, before) + [handles[k]];
        remaining := remaining - {k};
      }
      assert handles.Keys - remaining == handles.Keys;
      EnumerationSize(order, handles.Keys);
      handles := map[];
    }
  }
}
