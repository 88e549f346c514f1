/** The API server's view of one object: the versions stored so far, and conditional writes of its status. */
module VersionedStore {
  import opened Common

  /** A stored version with a note of who stored it; no reconciler ever looks at the note. */
  datatype Entry<T, O> = Entry(obj: T, origin: O)

  function Last<T, O>(h: seq<Entry<T, O>>): Entry<T, O>
    requires h != []
  {
    h[|h| - 1]
  }

  /** Storing what is stored already creates no version. */
  function Store<T(==), O>(h: seq<Entry<T, O>>, obj: T, origin: O): (r: seq<Entry<T, O>>)
    requires h != []
    ensures |h| <= |r| <= |h| + 1 && r[..|h|] == h && Last(r).obj == obj
  {
    if Last(h).obj == obj then h else h + [Entry(obj, origin)]
  }

  const CONFLICT: string :=
    "the object has been modified; please apply your changes to the latest version and try again"

  datatype Written<T, O> = Written(history: seq<Entry<T, O>>, err: Option<string>)

  /** A write that succeeds only if the version the writer read is still the latest. */
  function Put<T(==), O>(h: seq<Entry<T, O>>, version: nat, obj: T, origin: O, reply: Reply): Written<T, O>
    requires h != []
  {
    match reply
    case Rejected(e) => Written(h, Some(e))
    case Accepted => if version == |h| - 1 then Written(Store(h, obj, origin), None) else Written(h, Some(CONFLICT))
    case Lost(e) => Written(if version == |h| - 1 then Store(h, obj, origin) else h, Some(e))
  }

  /**
   * What a write does, and what it answers: it stores exactly when it reaches the server and is made from the latest
   * version, one version with the new object, or none when the object is stored already. The writer hears of no error
   * exactly when the reply is not lost either.
   */
  lemma PutExactly<T, O>(h: seq<Entry<T, O>>, version: nat, obj: T, origin: O, reply: Reply)
    requires h != []
    ensures var w := Put(h, version, obj, origin, reply); var latest := version == |h| - 1;
      && w.history == (if !reply.Rejected? && latest && h[|h| - 1].obj != obj then h + [Entry(obj, origin)] else h)
      && (w.err.None? <==> reply.Accepted? && latest)
      && (reply.Accepted? && !latest ==> w.err == Some(CONFLICT))
      && (!reply.Accepted? ==> w.err == Some(reply.error))
  {
  }

  class ApiServer<T(==), O> {
    var history: seq<Entry<T, O>>

    ghost predicate Valid() reads this { history != [] }

    /** Other writers store versions. */
    method Foreign(es: seq<Entry<T, O>>)
      requires Valid()
      modifies this
      ensures Valid() && history == old(history) + es
    {
      history := history + es;
    }

    method StoreVersion(obj: T, origin: O)
      requires Valid()
      modifies this
      ensures Valid() && history == Store(old(history), obj, origin)
    {
      if history[|history| - 1].obj != obj {
        history := history + [Entry(obj, origin)];
      }
    }

    /** An update with its check of the resource version. */
    method Update(version: nat, obj: T, origin: O, reply: Reply) returns (err: Option<string>)
      requires Valid()
      modifies this
      ensures Valid() && Written(history, err) == Put(old(history), version, obj, origin, reply)
    {
      if reply.Rejected? {
        return Some(reply.error);
      }
      if version == |history| - 1 {
        StoreVersion(obj, origin);
        return if reply.Lost? then Some(reply.error) else None;
      }
      return if reply.Lost? then Some(reply.error) else Some(CONFLICT);
    }
  }
}
