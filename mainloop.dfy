/** The part of the GLib main context that the applet reaches through
    `imports.mainloop`: the table of live timeout sources, each with the
    period in whole seconds it was registered with, and the counter that
    hands out source ids. */
module Mainloop {

  class MainLoop {
    /** live source id -> period in seconds */
    var sources: map<nat, nat>
    /** the id the next registered source gets; ids start at 1, so no live
        id is 0 (a falsy value in JavaScript) */
    var nextId: nat

    ghost predicate Valid()
      reads this
    {
      0 < nextId && forall id :: id in sources ==> 0 < id < nextId
    }

    constructor ()
      ensures Valid() && sources == map[]
    {
      sources := map[];
      nextId := 1;
    }

    /** `Mainloop.timeout_add_seconds`: registers a new source and returns
        its id, which no live source has. */
    method TimeoutAddSeconds(seconds: nat) returns (id: nat)
      requires Valid()
      modifies this
      ensures Valid()
      ensures 0 < id && id !in old(sources)
      ensures old(nextId) <= id < nextId
      ensures sources == old(sources)[id := seconds]
    {
      id := nextId;
      sources := sources[id := seconds];
      nextId := nextId + 1;
    }

    /** `Mainloop.source_remove`: the source is no longer live. */
    method SourceRemove(id: nat)
      requires Valid()
      modifies this
      ensures Valid()
      ensures sources == old(sources) - {id} && nextId == old(nextId)
    {
      sources := sources - {id};
    }

    /** End of a dispatch of source `id`: a callback that returns a falsy
        value (`keep` false) has its source dropped, if it is still live. */
    method FinishDispatch(id: nat, keep: bool)
      requires Valid()
      modifies this
      ensures Valid()
      ensures sources == if keep then old(sources) else old(sources) - {id}
      ensures nextId == old(nextId)
    {
      if !keep {
        sources := sources - {id};
      }
    }
  }
}
