/**
 * The L2 cache: a map with expiries. The in-process cache never loses anything;
 * the shared one may lose a read or a write and may fail to clear an entry, so
 * every operation takes the fault it is to suffer.
 */
module Cache {
  import opened Basics
  import opened Store

  /** What GetPrompt answers; commit is set only when a pinned version was asked for. */
  datatype Response = Response(uri: Uri, content: Content, version: Version, commit: Option<CommitId>)

  datatype Entry = Entry(resp: Response, expiry: int)

  type Entries = map<Uri, Entry>

  /** A clear that reports failure may or may not have dropped the entry. */
  datatype Clearing = Cleared | NotCleared(dropped: bool)

  /** An entry is served up to and including its expiry. */
  function Hit(m: Entries, uri: Uri, now: int, lost: bool): Option<Response> {
    if uri !in m || now > m[uri].expiry || lost then None else Some(m[uri].resp)
  }

  function Stored(m: Entries, uri: Uri, resp: Response, expiry: int, lost: bool): Entries {
    if lost then m else m[uri := Entry(resp, expiry)]
  }

  function Dropped(m: Entries, uri: Uri, c: Clearing): Entries {
    if c == NotCleared(false) then m else m - {uri}
  }

  class TtlCache {
    const ttl: int
    var m: Entries

    constructor (ttl: int)
      ensures this.ttl == ttl && m == map[]
    {
      this.ttl := ttl;
      m := map[];
    }

    method Get(uri: Uri, now: int, lost: bool) returns (resp: Option<Response>)
      ensures resp == Hit(m, uri, now, lost)
    {
      if uri !in m || now > m[uri].expiry {
        return None;
      }
      return if lost then None else Some(m[uri].resp);
    }

    method Put(uri: Uri, resp: Response, now: int, lost: bool)
      modifies this
      ensures m == Stored(old(m), uri, resp, now + ttl, lost)
      ensures !lost ==> forall later :: Hit(m, uri, later, false) == if later <= now + ttl then Some(resp) else None
    {
      if !lost {
        m := m[uri := Entry(resp, now + ttl)];
      }
    }

    method Invalidate(uri: Uri, fault: Clearing) returns (ok: bool)
      modifies this
      ensures m == Dropped(old(m), uri, fault) && ok == fault.Cleared?
      ensures ok ==> forall later, lost :: Hit(m, uri, later, lost) == None
    {
      if fault != NotCleared(false) {
        m := m - {uri};
      }
      return fault.Cleared?;
    }
  }

  // ---- what a Get answers, in terms of what was done to the cache ----

  /** One operation on the cache, with its time and its fault. */
  datatype CacheOp =
    | PutOp(uri: Uri, resp: Response, now: int, lost: bool)
    | InvalidateOp(uri: Uri, fault: Clearing)

  function After(ttl: int, ops: seq<CacheOp>): Entries {
    if ops == [] then map[]
    else
      var before := After(ttl, ops[..|ops| - 1]);
      match ops[|ops| - 1]
      case PutOp(uri, resp, now, lost) => Stored(before, uri, resp, now + ttl, lost)
      case InvalidateOp(uri, fault) => Dropped(before, uri, fault)
  }

  /** Operation k took effect on u. */
  predicate Touches(op: CacheOp, u: Uri) {
    op.uri == u && match op case PutOp(_, _, _, lost) => !lost case InvalidateOp(_, fault) => fault != NotCleared(false)
  }

  /** Operation k is the last that took effect on u. */
  ghost predicate LastTouch(ops: seq<CacheOp>, k: nat, u: Uri) {
    k < |ops| && Touches(ops[k], u) && forall j :: k < j < |ops| ==> !Touches(ops[j], u)
  }

  /**
   * After any operations, a Get that is not lost answers exactly when the last
   * operation to take effect on the URI was a Put no more than the TTL ago, and
   * then it answers what that Put stored.
   */
  lemma {:induction false} HitIsLastPut(ttl: int, ops: seq<CacheOp>, u: Uri, now: int, resp: Response)
    ensures Hit(After(ttl, ops), u, now, false) == Some(resp) <==>
            exists k: nat :: LastTouch(ops, k, u) && ops[k].PutOp? && ops[k].resp == resp && now <= ops[k].now + ttl
    decreases |ops|
  {
    if ops != [] {
      var n := |ops| - 1;
      var before := ops[..n];
      HitIsLastPut(ttl, before, u, now, resp);
      if Touches(ops[n], u) {
        assert LastTouch(ops, n, u);
      } else {
        assert Hit(After(ttl, ops), u, now, false) == Hit(After(ttl, before), u, now, false);
        assert forall k: nat :: LastTouch(ops, k, u) <==> LastTouch(before, k, u);
      }
    }
  }
}
