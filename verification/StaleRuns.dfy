/** Closing a live run whose import context is gone. */
module StaleRuns {
  import opened Wrappers
  import opened LiveSession

  class ResultObject {
    const start: int
    var finish: Option<int>

    constructor (start: int)
      ensures this.start == start && finish == None
    {
      this.start, finish := start, None;
    }
  }

  class RunObject {
    const start: int
    var run: Run

    constructor (start: int, status: RunStatus)
      ensures this.start == start && run == Run(None, status)
    {
      this.start, run := start, Run(None, status);
    }
  }

  /** The unfinished results of the run, in the order of their start. */
  ghost predicate PendingByStart(items: seq<ResultObject>)
    reads items
  {
    && (forall i :: 0 <= i < |items| ==> items[i].finish.None?)
    && (forall i, j :: 0 <= i < j < |items| ==> items[i] != items[j] && items[i].start <= items[j].start)
  }

  /** Close the run if nothing will ever close it: not finished, live, and without a context.  Pending results
      are closed latest first, each a microsecond after the previous one and all after they started; the run
      is closed last. */
  method CheckRunTimeout(runObject: RunObject, live: bool, hasContext: bool, items: seq<ResultObject>)
    returns (closed: bool)
    requires PendingByStart(items)
    modifies runObject, items
    ensures closed <==> old(runObject.run).finish.None? && live && !hasContext
    ensures !closed ==> runObject.run == old(runObject.run) && PendingByStart(items)
    ensures closed ==>
              var last := if items == [] then runObject.start else items[|items| - 1].start;
              && (forall i :: 0 <= i < |items| ==>
                  items[i].finish == Some(last + |items| - i) && items[i].start < last + |items| - i)
              && runObject.run == Run(Some(last + |items| + 1), Error)
    ensures closed ==> forall i, j :: 0 <= i < j < |items| ==>
              items[j].finish.value < items[i].finish.value < runObject.run.finish.value
  {
    if runObject.run.finish.Some? || !live || hasContext {
      return false;
    }
    var last := if items == [] then runObject.start else items[|items| - 1].start;
    var lastTs := last + 1;
    var k := |items|;
    while k > 0
      invariant 0 <= k <= |items| && lastTs == last + 1 + |items| - k
      invariant forall i :: k <= i < |items| ==> items[i].finish == Some(last + |items| - i)
    {
      k := k - 1;
      items[k].finish := Some(lastTs);
      lastTs := lastTs + 1;
    }
    runObject.run := Run(Some(lastTs), Error);
    closed := true;
  }
}
