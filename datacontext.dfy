/**
 * engine/datacontext.go: the string-keyed store the components of one run share.
 * The read-write lock is left out; each operation is one step on the map.
 */
module DataContexts {
  import opened ConfigTypes

  /** A copy of m built entry by entry, as NewDataContextWith and Snapshot build theirs. */
  method CopyEntries(m: map<string, Value>) returns (copy: map<string, Value>)
    ensures copy == m
  {
    copy := map[];
    var remaining := m.Keys;
    while remaining != {}
      invariant remaining <= m.Keys
      invariant copy.Keys == m.Keys - remaining
      invariant forall k :: k in copy ==> copy[k] == m[k]
      decreases |remaining|
    {
      var k :| k in remaining;
      copy := copy[k := m[k]];
      remaining := remaining - {k};
    }
    assert copy.Keys == m.Keys;
  }

  /** defaultDataContext */
  class DataContext {
    var data: map<string, Value>

    /** NewDataContext */
    constructor()
      ensures data == map[]
    {
      data := map[];
    }

    /** NewDataContextWith: exactly the entries of `initial`. */
    constructor With(initial: map<string, Value>)
      ensures data == initial
    {
      var copy := CopyEntries(initial);
      data := copy;
    }

    method Set(key: string, value: Value)
      modifies this
      ensures data == old(data)[key := value]
    {
      data := data[key := value];
    }

    /** Get: the stored value and true, or nil and false. */
    method Get(key: string) returns (value: Value, ok: bool)
      ensures ok <==> key in data
      ensures ok ==> value == data[key]
      ensures !ok ==> value == Null
    {
      if key in data {
        return data[key], true;
      }
      return Null, false;
    }

    /** GetString: only a stored string counts; anything else reads as "" and false. */
    method GetString(key: string) returns (s: string, ok: bool)
      ensures ok <==> key in data && data[key].Str?
      ensures ok ==> s == data[key].s
      ensures !ok ==> s == ""
    {
      if key in data {
        var v := data[key];
        if v.Str? {
          return v.s, true;
        }
      }
      return "", false;
    }

    /** Delete; deleting an absent key changes nothing. */
    method Delete(key: string)
      modifies this
      ensures data == old(data) - {key}
      ensures key !in old(data) ==> data == old(data)
    {
      data := data - {key};
    }

    method Has(key: string) returns (present: bool)
      ensures present <==> key in data
    {
      present := key in data;
    }

    /** Snapshot: a copy of the current contents. */
    method Snapshot() returns (copy: map<string, Value>)
      ensures copy == data
    {
      copy := CopyEntries(data);
    }
  }

  /** A snapshot is a value: writes to the context after it was taken do not reach it. */
  method SnapshotIsolated(ctx: DataContext, key: string, value: Value) returns (snapshot: map<string, Value>)
    modifies ctx
    ensures snapshot == old(ctx.data)
    ensures ctx.data == (old(ctx.data)[key := value]) - {key}
  {
    snapshot := ctx.Snapshot();
    ctx.Set(key, value);
    ctx.Delete(key);
  }
}
