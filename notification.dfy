/** The rule shared by the four notification helpers of the fingerprinter:
    skip when there is no listener, post to the UI thread when the listener is
    an `Activity`, call it directly otherwise. */
module Notification {
  import opened Events

  /** The listener registered at construction, as far as dispatch can tell:
      absent (null), an `Activity` (it owns a UI thread), or any other object. */
  datatype Listener = NoListener | UiBound | Direct

  /** The events one notification helper adds to the trace. */
  function Dispatch(l: Listener, cb: Callback): (r: seq<Event>)
    ensures l.NoListener? <==> r == []
    ensures l.UiBound? ==> r == [Notify(cb, PostedToUiThread)]
    ensures l.Direct? ==> r == [Notify(cb, CalledDirectly)]
  {
    if l == NoListener then []
    else if l == UiBound then [Notify(cb, PostedToUiThread)]
    else [Notify(cb, CalledDirectly)]
  }

  /** The delivery every notification to a registered listener uses. */
  function DeliveryFor(l: Listener): Delivery
    requires !l.NoListener?
  {
    if l.UiBound? then PostedToUiThread else CalledDirectly
  }

  /** A helper delivers its callback exactly once to a registered listener,
      never to an absent one, and always by the listener's own delivery. */
  lemma DispatchDelivers(l: Listener, cb: Callback)
    ensures Callbacks(Dispatch(l, cb)) == if l.NoListener? then [] else [cb]
    ensures forall e :: e in Dispatch(l, cb) ==> e == Notify(cb, DeliveryFor(l))
  {
    if !l.NoListener? {
      assert Dispatch(l, cb)[1..] == [];
    }
  }
}
