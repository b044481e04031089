/**
 The object-store statements as the database layer runs them, inside the transaction of the row
 they belong to.
 */
module ObjectDb {

  import opened Wrappers
  import opened ObjectStore

  class Tables {
    var rows: map<Id, Row>
    var refs: set<(Hash, Owner)>
    var objects: map<Hash, Option<int>>
    var signals: set<nat>

    /** claimObjects: content first, then a claim on every hash the value references. */
    method ClaimObjects(owner: Owner, pending: seq<Hash>, referenced: set<Hash>)
      modifies this`refs, this`objects
      ensures objects == PutAll(old(objects), set h | h in pending)
      ensures refs == ClaimAll(old(refs), referenced, owner)
    {
      for i := 0 to |pending|
        invariant objects == PutAll(old(objects), set h | h in pending[..i])
        invariant refs == old(refs)
      {
        assert pending[..i + 1] == pending[..i] + [pending[i]];
        objects := objects[pending[i] := None];
      }
      assert pending[..|pending|] == pending;
      var todo := referenced;
      while todo != {}
        invariant todo <= referenced && refs == ClaimAll(old(refs), referenced - todo, owner)
        invariant objects == PutAll(old(objects), set h | h in pending)
        decreases todo
      {
        var h :| h in todo;
        refs := refs + {(h, owner)};
        todo := todo - {h};
      }
      assert referenced - todo == referenced;
    }

    /** applyContextObjectDiff: the claims of one instance, and no others, move to what the new
        state references. */
    method ApplyContextObjectDiff(x: Id, pending: seq<Hash>, loaded: set<Hash>, referenced: set<Hash>)
      modifies this`refs, this`objects
      ensures objects == PutAll(old(objects), set h | h in pending)
      ensures refs == Diff(old(refs), Instance(x), loaded, referenced)
    {
      ClaimObjects(Instance(x), pending, referenced);
      ghost var claimed := refs;
      var todo := loaded;
      while todo != {}
        invariant todo <= loaded && objects == PutAll(old(objects), set h | h in pending)
        invariant refs == claimed - set h | h in (loaded - todo) - referenced :: (h, Instance(x))
        decreases todo
      {
        var h :| h in todo;
        if h !in referenced {
          refs := refs - {(h, Instance(x))};
        }
        todo := todo - {h};
      }
      assert (loaded - todo) - referenced == loaded - referenced;
    }

    /** An engine write: state, claims and the consumed signal first, the fence last.  Refused, the
        transaction rolls back and nothing at all has changed; landed, the signal is gone
        together with the write that used it. */
    method PersistFenced(x: Id, copy: Copy, epoch: nat, pending: seq<Hash>, referenced: set<Hash>, stage: Stage,
                         consumed: Option<nat>)
      returns (landed: bool)
      modifies this
      ensures landed <==> x in old(rows) && old(rows)[x].epoch == epoch && old(rows)[x].worker == Some(copy.worker)
      ensures !landed ==> rows == old(rows) && refs == old(refs) && objects == old(objects) && signals == old(signals)
      ensures landed ==>
        && rows == old(rows)[x := old(rows)[x].(worker := None, stage := stage, objects := referenced)]
        && objects == PutAll(old(objects), set h | h in pending)
        && refs == Diff(old(refs), Instance(x), copy.loaded, referenced)
        && signals == if consumed.Some? then old(signals) - {consumed.value} else old(signals)
    {
      var rows0, refs0, objects0, signals0 := rows, refs, objects, signals;
      ApplyContextObjectDiff(x, pending, copy.loaded, referenced);
      if consumed.Some? {
        signals := signals - {consumed.value};
      }
      var n := 0;
      if x in rows && rows[x].epoch == epoch && rows[x].worker == Some(copy.worker) {
        rows := rows[x := rows[x].(worker := None, stage := stage, objects := referenced)];
        n := 1;
      }
      if n == 0 {
        rows, refs, objects, signals := rows0, refs0, objects0, signals0;
        return false;
      }
      return true;
    }
  }
}
