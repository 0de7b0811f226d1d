/** What `runProcessors` does, as a function of the processor list, the cancelled
    flag it starts from, and which external tool runs fail. */
module Processors {
  import opened ForgeTypes

  /** The processors that were invoked, in order, and the final cancelled flag. */
  datatype RunResult = RunResult(ran: seq<Processor>, cancelled: bool)

  /** Each processor in list order: skipped while the install is cancelled,
      otherwise run, and a failing run cancels the install. */
  function Run(procs: seq<Processor>, cancelled: bool, fails: Processor -> bool): RunResult
    decreases |procs|
  {
    if procs == [] then RunResult([], cancelled)
    else
      var r := Run(procs[..|procs| - 1], cancelled, fails);
      var p := procs[|procs| - 1];
      if r.cancelled then r
      else if fails(p) then RunResult(r.ran + [p], true)
      else RunResult(r.ran + [p], false)
  }

  /** `k` is the position of the first processor whose run fails. */
  predicate IsFirstFailure(procs: seq<Processor>, fails: Processor -> bool, k: nat) {
    k < |procs| && fails(procs[k]) && forall j :: 0 <= j < k ==> !fails(procs[j])
  }

  /** The processors run are always a prefix of the list: attempted strictly in order, none skipped and later run. */
  lemma {:induction false} RunIsPrefix(procs: seq<Processor>, cancelled: bool, fails: Processor -> bool)
    ensures var r := Run(procs, cancelled, fails); |r.ran| <= |procs| && r.ran == procs[..|r.ran|]
    decreases |procs|
  {
    if procs != [] {
      var init := procs[..|procs| - 1];
      RunIsPrefix(init, cancelled, fails);
      var r0 := Run(init, cancelled, fails);
      assert init[..|r0.ran|] == procs[..|r0.ran|];
      if !r0.cancelled {
        assert |r0.ran| == |init| by {
          RunCancelledOrComplete(init, cancelled, fails);
        }
        assert r0.ran + [procs[|procs| - 1]] == procs;
      }
    }
  }

  /** A run that ends uncancelled ran every processor. */
  lemma {:induction false} RunCancelledOrComplete(procs: seq<Processor>, cancelled: bool, fails: Processor -> bool)
    ensures var r := Run(procs, cancelled, fails); !r.cancelled ==> |r.ran| == |procs|
    decreases |procs|
  {
    if procs != [] {
      RunCancelledOrComplete(procs[..|procs| - 1], cancelled, fails);
    }
  }

  /** Starting cancelled, no processor runs and the flag stays set. */
  lemma {:induction false} RunWhenCancelled(procs: seq<Processor>, fails: Processor -> bool)
    ensures Run(procs, true, fails) == RunResult([], true)
    decreases |procs|
  {
    if procs != [] {
      RunWhenCancelled(procs[..|procs| - 1], fails);
    }
  }

  /** With no failure, every processor runs, in order, and the install stays uncancelled. */
  lemma {:induction false} RunAllSucceed(procs: seq<Processor>, fails: Processor -> bool)
    requires forall j :: 0 <= j < |procs| ==> !fails(procs[j])
    ensures Run(procs, false, fails) == RunResult(procs, false)
    decreases |procs|
  {
    if procs != [] {
      RunAllSucceed(procs[..|procs| - 1], fails);
      assert procs[..|procs| - 1] + [procs[|procs| - 1]] == procs;
    }
  }

  /** The first failing processor is the last one run: everything before it ran,
      nothing after it did, and the install ends cancelled. */
  lemma {:induction false} RunStopsAtFirstFailure(procs: seq<Processor>, fails: Processor -> bool, k: nat)
    requires IsFirstFailure(procs, fails, k)
    ensures Run(procs, false, fails) == RunResult(procs[..k + 1], true)
    decreases |procs|
  {
    var n := |procs| - 1;
    var init := procs[..n];
    if k == n {
      RunAllSucceed(init, fails);
      assert init + [procs[n]] == procs[..k + 1];
    } else {
      assert IsFirstFailure(init, fails, k);
      RunStopsAtFirstFailure(init, fails, k);
      assert init[..k + 1] == procs[..k + 1];
    }
  }

  /** The final flag is set exactly when it was set at the start or some processor that ran failed. */
  lemma {:induction false} RunCancelledIffFailure(procs: seq<Processor>, cancelled: bool, fails: Processor -> bool)
    ensures var r := Run(procs, cancelled, fails);
      r.cancelled <==> cancelled || exists i :: 0 <= i < |r.ran| && fails(r.ran[i])
    decreases |procs|
  {
    if procs != [] {
      var r0 := Run(procs[..|procs| - 1], cancelled, fails);
      RunCancelledIffFailure(procs[..|procs| - 1], cancelled, fails);
      var r := Run(procs, cancelled, fails);
      if !r0.cancelled {
        assert forall i :: 0 <= i < |r0.ran| ==> r.ran[i] == r0.ran[i];
        assert r.ran[|r0.ran|] == procs[|procs| - 1];
      }
    }
  }
}
