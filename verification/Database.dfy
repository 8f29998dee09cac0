/** The store as an object: what the server and the CLI hold a handle to. */
module Databases {
  import opened Basics
  import opened Store

  /** The database: each method is one transaction, or fails with the given fault and changes nothing. */
  class Database {
    var t: Tables

    constructor ()
      ensures t == EMPTY
    {
      t := EMPTY;
    }

    method Commit(uri: Uri, branch: Store.Branch, content: Content, author: string, message: string, stamp: Stamp, fault: Option<StoreError>)
      returns (r: Result<CommitId, StoreError>)
      modifies this
      ensures fault.Some? ==> t == old(t) && r == Err(fault.value)
      ensures fault.None? ==> t == old(t).CommitOn(uri, branch, content, author, message, stamp) && r == Ok(stamp.id)
      ensures r.Ok? ==> MovesTo(old(t), t, uri, branch, r.value) && t.commits[r.value].content == content
                        && t.commits[r.value].parent == old(t).Tip(uri, branch)
    {
      if fault.Some? {
        return Err(fault.value);
      }
      var parent := t.Tip(uri, branch);
      CommitReadsBack(t, uri, branch, content, author, message, stamp);
      t := t.Install(branch, stamp.id, Tables.NewCommit(uri, content, parent, author, message, stamp));
      return Ok(stamp.id);
    }

    method Merge(uri: Uri, into: Store.Branch, from: Store.Branch, author: string, message: string, stamp: Stamp, fault: Option<StoreError>)
      returns (r: Result<CommitId, StoreError>)
      modifies this
      ensures fault.Some? ==> t == old(t) && r == Err(fault.value)
      ensures fault.None? ==>
                match old(t).MergeInto(uri, into, from, author, message, stamp)
                case Err(e) => t == old(t) && r == Err(e)
                case Ok(t') => t == t' && r == Ok(stamp.id) && stamp.id in t.commits
      ensures r.Err? ==> t == old(t)
    {
      if fault.Some? {
        return Err(fault.value);
      }
      match t.MergeInto(uri, into, from, author, message, stamp) {
        case Err(e) => return Err(e);
        case Ok(t') =>
          MergeReadsBack(t, uri, into, from, author, message, stamp);
          t := t';
          return Ok(stamp.id);
      }
    }

    method SetBranch(uri: Uri, branch: Store.Branch, id: CommitId, fault: Option<StoreError>) returns (r: Result<Store.Commit, StoreError>)
      modifies this
      ensures fault.Some? ==> t == old(t) && r == Err(fault.value)
      ensures fault.None? ==>
                match old(t).PointTo(uri, branch, id)
                case Err(e) => t == old(t) && r == Err(e)
                case Ok(t') => t == t' && id in t.commits && r == Ok(t.commits[id])
      ensures r.Err? ==> t == old(t)
      ensures r.Ok? ==> MovesTo(old(t), t, uri, branch, id) && t.commits == old(t).commits && r.value.uri == uri
    {
      if fault.Some? {
        return Err(fault.value);
      }
      match t.PointTo(uri, branch, id) {
        case Err(e) => return Err(e);
        case Ok(t') =>
          PointReadsBack(t, uri, branch, id);
          t := t';
          return Ok(t.commits[id]);
      }
    }

    method Branch(uri: Uri, name: Store.Branch, from: Store.Branch, fault: Option<StoreError>) returns (r: Result<CommitId, StoreError>)
      modifies this
      ensures fault.Some? ==> t == old(t) && r == Err(fault.value)
      ensures fault.None? ==>
                match old(t).NewBranch(uri, name, from)
                case Err(e) => t == old(t) && r == Err(e)
                case Ok(t') => t == t' && (uri, name) in t.refs && r == Ok(t.refs[(uri, name)])
    {
      if fault.Some? {
        return Err(fault.value);
      }
      match t.NewBranch(uri, name, from) {
        case Err(e) => return Err(e);
        case Ok(t') =>
          t := t';
          return Ok(t.refs[(uri, name)]);
      }
    }

    // ---- the raw row writes a restore uses ----

    method PutCommit(id: CommitId, c: Store.Commit)
      modifies this
      ensures t == old(t).(commits := old(t).commits[id := c])
    {
      t := t.(commits := t.commits[id := c]);
    }

    method PutRef(uri: Uri, branch: Store.Branch, id: CommitId)
      modifies this
      ensures t == old(t).(refs := old(t).refs[(uri, branch) := id])
    {
      t := t.(refs := t.refs[(uri, branch) := id]);
    }

    method Put(uri: Uri, content: Content)
      modifies this
      ensures t == old(t).(prompts := old(t).prompts[uri := content])
    {
      t := t.(prompts := t.prompts[uri := content]);
    }
  }
}
