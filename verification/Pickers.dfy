/** The launchers with their fields overwritten in place. The tree picker and the document
    picker share one hand-off and differ in what a result is: a tree or none, and a list of
    documents. Each callback is proved to take exactly the step that `PickerProtocol` gives
    it. */
module Pickers {
  import opened Options
  import opened PickerProtocol

  /** `nothing` is the answer to a request that has no result; `fates` is the coroutine
      library's record of each launch. */
  class ActivityLauncher<T(==)> {
    const nothing: T
    var bound: bool
    var pending: Option<nat>
    var fates: seq<Fate<T>>

    ghost function State(): Desk<T>
      reads this
    {
      Desk(bound, pending, fates)
    }

    constructor (nothing: T)
      ensures this.nothing == nothing && State() == NewDesk()
    {
      this.nothing := nothing;
      bound, pending, fates := false, None, [];
    }

    method BindActivity()
      modifies `bound
      ensures State() == Next(old(State()), Bind, nothing)
    {
      bound := true;
    }

    method OnResult(value: T)
      modifies this
      ensures State() == Next(old(State()), Result(value), nothing)
    {
      var callback := pending;
      pending := None;
      Call(callback, value);
    }

    method LaunchPicker(cancelled: bool)
      modifies this
      ensures State() == Next(old(State()), Launch(cancelled), nothing)
    {
      if !bound {
        fates := fates + [if cancelled then Cancelled else Resumed(nothing, false)];
        return;
      }
      var continuation := |fates|;
      Call(pending, nothing);
      fates := fates + [if cancelled then Cancelled else Waiting];
      pending := Some(continuation);
      if cancelled {
        pending := None;
      }
    }

    /** The stored callback: resumes its continuation if that is still active. */
    method Call(callback: Option<nat>, value: T)
      modifies `fates
      ensures fates == Invoke(Desk(bound, callback, old(fates)), value).fates
    {
      if callback.Some? && callback.value < |fates| && fates[callback.value].Waiting? {
        fates := fates[callback.value := Resumed(value, true)];
      }
    }

    method OnDispatch(id: nat)
      modifies this
      ensures State() == Next(old(State()), Dispatch(id), nothing)
    {
      if id < |fates| && fates[id].Resumed? {
        fates := fates[id := Returned(fates[id].value)];
      }
    }

    method OnCancellation(id: nat)
      modifies this
      ensures State() == Next(old(State()), Cancel(id), nothing)
    {
      if id < |fates| && (fates[id].Waiting? || fates[id].Resumed?) {
        if fates[id].Waiting? || fates[id].hooked {
          pending := None;
        }
        fates := fates[id := Cancelled];
      }
    }
  }

  type Uri = string

  /** What the document picker hands back: several items, or one. */
  datatype Intent = Intent(clip: Option<seq<Uri>>, single: Option<Uri>)

  /** The picked items are gathered one by one: all of several, else the single one, else none. */
  method GatherUris(data: Option<Intent>) returns (uris: seq<Uri>)
    ensures data.Some? && data.value.clip.Some? ==> uris == data.value.clip.value
    ensures data.Some? && data.value.clip.None? && data.value.single.Some? ==> uris == [data.value.single.value]
    ensures data.None? || data.value == Intent(None, None) ==> uris == []
  {
    uris := [];
    if data.Some? && data.value.clip.Some? {
      var clip := data.value.clip.value;
      for i := 0 to |clip|
        invariant uris == clip[..i]
      {
        uris := uris + [clip[i]];
      }
    } else if data.Some? && data.value.single.Some? {
      uris := uris + [data.value.single.value];
    }
  }
}
