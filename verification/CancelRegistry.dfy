/**
 The cancel registry of the worker pool: job type to job ID to cancel func. A cancel func is
 identified by the worker goroutine whose context it cancels.
 */
module CancelRegistry {
  import opened Types
  import opened Pool

  class Registry {
    var cancels: map<string, map<Id, nat>>

    constructor ()
      ensures cancels == DOWN.cancels
    {
      cancels := map[];
    }

    method Register(typ: string, id: Id, w: nat)
      modifies this
      ensures cancels == WithEntry(old(cancels), typ, id, w)
      ensures Entries(cancels, typ) == Entries(old(cancels), typ)[id := w]
      ensures forall other | other != typ :: Entries(cancels, other) == Entries(old(cancels), other)
    {
      if typ !in cancels {
        cancels := cancels[typ := map[]];
      }
      var m: map<Id, nat> := cancels[typ];
      m := m[id := w];
      cancels := cancels[typ := m];
    }

    /** Deleting from a missing inner map does nothing, as in Go. */
    method Deregister(typ: string, id: Id)
      modifies this
      ensures cancels == WithoutEntry(old(cancels), typ, id)
      ensures Entries(cancels, typ) == Entries(old(cancels), typ) - {id}
      ensures forall other | other != typ :: Entries(cancels, other) == Entries(old(cancels), other)
    {
      if typ in cancels {
        cancels := cancels[typ := cancels[typ] - {id}];
      }
    }

    /** `called` lists the cancel funcs called, one per entry of the type. */
    method CancelAll(typ: string) returns (n: nat, called: seq<nat>)
      modifies this
      ensures cancels == old(cancels) - {typ} && Entries(cancels, typ) == map[]
      ensures n == |Entries(old(cancels), typ)| == |called|
      ensures forall w :: w in called <==> w in Entries(old(cancels), typ).Values
    {
      var m := if typ in cancels then cancels[typ] else map[];
      called := [];
      var ids := m.Keys;
      while ids != {}
        invariant ids <= m.Keys && |called| + |ids| == |m|
        invariant forall w :: w in called <==> exists id :: id in m && id !in ids && m[id] == w
      {
        var id :| id in ids;
        ids := ids - {id};
        called := called + [m[id]];
      }
      n := |m|;
      cancels := cancels - {typ};
    }
  }
}
