/** CircularReferencePrevention: the set of objects currently being rendered
    along the path from the root. Membership is by identity, which for heap
    objects is the object id. */
module Tracking {
  import opened ObjectModel

  class Tracker {
    var contents: set<ObjId>

    /** A new tracker holds nothing. */
    constructor ()
      ensures contents == {}
    {
      contents := {};
    }

    /** checkExists: scans every element and compares identities. */
    method CheckExists(x: ObjId) returns (found: bool)
      ensures found <==> x in contents
    {
      found := false;
      var rest := contents;
      while rest != {}
        invariant rest <= contents
        invariant found <==> x in contents - rest
        decreases |rest|
      {
        var e :| e in rest;
        if e == x {
          found := true;
        }
        rest := rest - {e};
      }
    }

    /** add */
    method Add(x: ObjId)
      modifies this
      ensures contents == old(contents) + {x}
    {
      contents := contents + {x};
    }

    /** remove */
    method Remove(x: ObjId)
      modifies this
      ensures contents == old(contents) - {x}
    {
      contents := contents - {x};
    }

    /** addAll */
    method AddAll(xs: seq<ObjId>)
      modifies this
      ensures contents == old(contents) + (set i | 0 <= i < |xs| :: xs[i])
    {
      contents := contents + (set i | 0 <= i < |xs| :: xs[i]);
    }

    /** removeAll */
    method RemoveAll(xs: seq<ObjId>)
      modifies this
      ensures contents == old(contents) - (set i | 0 <= i < |xs| :: xs[i])
    {
      contents := contents - (set i | 0 <= i < |xs| :: xs[i]);
    }
  }

  /** Adding an object that is not yet tracked and then removing it leaves the
      tracked set as it was; this is what keeps sibling fields independent. */
  method AddThenRemove(t: Tracker, x: ObjId)
    requires x !in t.contents
    modifies t
    ensures t.contents == old(t.contents)
  {
    t.Add(x);
    t.Remove(x);
  }
}
