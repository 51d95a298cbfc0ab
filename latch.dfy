/** The one-shot configuration latch of `MailJack.config`, abstracted to
    the phase of the process-global configuration and the calls made so far. */
module Latch {
  import opened Ruby

  /** Absent: no Config stored. Stored: a Config was stored but its
      `configured` flag was never set. Configured: setup ran to completion. */
  datatype Phase = Absent | Stored | Configured

  /** One call of `MailJack.config`: with no block, or with a block and the
      way the block ends and the outcome of the setup that follows it. */
  datatype ConfigCall = WithoutBlock | WithBlock(block: BlockExit, setup: Step)

  /** What the call gives back: the stored Config (of type `C`), `true` (the
      value of the assignment that ends a completed setup), the value the
      block passed to `break` (nil for a bare `break`), or an exception. */
  datatype Reply<+C> = ReturnsStored(stored: C) | ReturnsTrue | ReturnsBreakValue | Raises(error: Exception)

  /** A reply with the identity of the returned Config forgotten. */
  function Shape<C>(r: Reply<C>): Reply<()>
  {
    match r
    case ReturnsStored(_) => ReturnsStored(())
    case ReturnsTrue => ReturnsTrue
    case ReturnsBreakValue => ReturnsBreakValue
    case Raises(e) => Raises(e)
  }

  /** The phase after a call, its reply, and whether it yielded to the block
      and started the setup. */
  datatype Effect = Effect(phase: Phase, reply: Reply<()>, yielded: bool, setupRan: bool)

  const NotConfiguredMessage: string :=
    "you must configure MailJack to use it.  call MailJack.config{|config| ...} from an initializer"

  /** One call of `MailJack.config` in phase `p`. */
  function Next(p: Phase, c: ConfigCall): (e: Effect)
    ensures e.yielded <==> p == Absent && c.WithBlock?
    ensures e.setupRan <==> e.yielded && c.block.Finishes?
    ensures e.phase == Absent <==> p == Absent && c == WithoutBlock
    ensures p != Absent ==> e.phase == p && e.reply == ReturnsStored(())
    ensures e.phase == Configured <==> p == Configured || (e.setupRan && c.setup.Completes?)
  {
    if p != Absent then Effect(p, ReturnsStored(()), false, false)
    else match c
      case WithoutBlock => Effect(Absent, Raises(ArgumentError(NotConfiguredMessage)), false, false)
      case WithBlock(RaisesOut(e), _) => Effect(Stored, Raises(e), true, false)
      case WithBlock(Breaks, _) => Effect(Stored, ReturnsBreakValue, true, false)
      case WithBlock(Finishes, Fails(e)) => Effect(Stored, Raises(e), true, true)
      case WithBlock(Finishes, Completes) => Effect(Configured, ReturnsTrue, true, true)
  }

  /** The phase after the calls `h`, starting from a fresh process. */
  function After(h: seq<ConfigCall>): Phase
    decreases |h|
  {
    if h == [] then Absent else Next(After(h[..|h| - 1]), h[|h| - 1]).phase
  }

  /** How many of the calls `h` yielded to their block. */
  function Yields(h: seq<ConfigCall>): nat
    decreases |h|
  {
    if h == [] then 0
    else Yields(h[..|h| - 1]) + if Next(After(h[..|h| - 1]), h[|h| - 1]).yielded then 1 else 0
  }

  /** How many of the calls `h` started the setup (accessors, mailer
      decoration, interceptor registration). */
  function Setups(h: seq<ConfigCall>): nat
    decreases |h|
  {
    if h == [] then 0
    else Setups(h[..|h| - 1]) + if Next(After(h[..|h| - 1]), h[|h| - 1]).setupRan then 1 else 0
  }

  /** The reply of call `i` of the history `h`. */
  function ReplyAt(h: seq<ConfigCall>, i: nat): Reply<()>
    requires i < |h|
  {
    Next(After(h[..i]), h[i]).reply
  }

  /** The first call that carried a block found the latch open, and both the
      block and the setup completed. */
  ghost predicate FirstBlockCompleted(h: seq<ConfigCall>)
  {
    exists k :: 0 <= k < |h| && h[k] == WithBlock(Finishes, Completes) &&
      forall i :: 0 <= i < k ==> h[i] == WithoutBlock
  }

  /** The block runs at most once and the setup at most once, ever; a Config
      is stored exactly when the block has run. */
  lemma {:induction false} SetupAtMostOnce(h: seq<ConfigCall>)
    ensures Setups(h) <= Yields(h) <= 1
    ensures After(h) == Absent <==> Yields(h) == 0
    ensures After(h) == Configured ==> Setups(h) == 1
    decreases |h|
  {
    if h != [] {
      SetupAtMostOnce(h[..|h| - 1]);
    }
  }

  /** The latch stays open, raising ArgumentError, exactly as long as no
      call has brought a block. */
  lemma {:induction false} AbsentIffNoBlock(h: seq<ConfigCall>)
    ensures After(h) == Absent <==> forall i :: 0 <= i < |h| ==> h[i] == WithoutBlock
    ensures After(h) == Absent ==> forall i :: 0 <= i < |h| ==> ReplyAt(h, i) == Raises(ArgumentError(NotConfiguredMessage))
    decreases |h|
  {
    if h != [] {
      var p := h[..|h| - 1];
      AbsentIffNoBlock(p);
      if After(h) == Absent {
        forall i | 0 <= i < |h| ensures ReplyAt(h, i) == Raises(ArgumentError(NotConfiguredMessage)) {
          assert h[..i] == p[..i] by { if i < |p| { } }
          if i < |p| { assert ReplyAt(h, i) == ReplyAt(p, i); }
        }
      }
    }
  }

  /** Once a Config is stored, every later call returns it, and neither the
      phase nor the number of yields and setups changes again. */
  lemma {:induction false} LatchIsPermanent(h: seq<ConfigCall>, k: nat)
    requires k <= |h|
    requires After(h[..k]) != Absent
    ensures After(h) == After(h[..k])
    ensures Yields(h) == Yields(h[..k]) && Setups(h) == Setups(h[..k])
    ensures forall i :: k <= i < |h| ==> ReplyAt(h, i) == ReturnsStored(())
    decreases |h|
  {
    if k < |h| {
      var p := h[..|h| - 1];
      assert p[..k] == h[..k];
      LatchIsPermanent(p, k);
      assert h[..|h|] == h;
      forall i | k <= i < |h| ensures ReplyAt(h, i) == ReturnsStored(()) {
        if i < |p| {
          assert h[..i] == p[..i];
          assert ReplyAt(h, i) == ReplyAt(p, i);
        }
      }
    } else {
      assert h[..k] == h;
    }
  }

  /** The first completed block of a history lies in its prefix without
      the last call, or is that last call itself. */
  lemma FirstBlockSplit(h: seq<ConfigCall>)
    requires h != []
    ensures FirstBlockCompleted(h) ==>
      FirstBlockCompleted(h[..|h| - 1]) ||
      (h[|h| - 1] == WithBlock(Finishes, Completes) && forall i :: 0 <= i < |h| - 1 ==> h[i] == WithoutBlock)
  {
    if FirstBlockCompleted(h) {
      var p := h[..|h| - 1];
      var k :| 0 <= k < |h| && h[k] == WithBlock(Finishes, Completes) &&
        forall i :: 0 <= i < k ==> h[i] == WithoutBlock;
      if k < |p| {
        assert p[k] == h[k];
        assert forall i :: 0 <= i < k ==> p[i] == h[i];
      }
    }
  }

  /** `configured?` holds after the calls `h` exactly when the first call
      with a block completed both its block and its setup. */
  lemma {:induction false} ConfiguredIff(h: seq<ConfigCall>)
    ensures After(h) == Configured <==> FirstBlockCompleted(h)
    decreases |h|
  {
    if h != [] {
      var p := h[..|h| - 1];
      ConfiguredIff(p);
      AbsentIffNoBlock(p);
      FirstBlockSplit(h);
      if FirstBlockCompleted(p) {
        var k :| 0 <= k < |p| && p[k] == WithBlock(Finishes, Completes) &&
          forall i :: 0 <= i < k ==> p[i] == WithoutBlock;
        assert h[k] == p[k];
      }
      if After(h) == Configured && After(p) == Absent {
        assert h[|h| - 1] == WithBlock(Finishes, Completes);
        assert forall i :: 0 <= i < |h| - 1 ==> h[i] == p[i];
      }
    }
  }

  /** When the first call with a block does not get through both its block
      and its setup (the block raises or breaks, or the setup raises), that
      call raises or returns the break value, the stored Config is never
      configured, no later call yields or repeats the setup, and each later
      call returns the stored Config. */
  lemma {:induction false} FailedSetupSticks(h: seq<ConfigCall>, k: nat)
    requires k < |h|
    requires forall i :: 0 <= i < k ==> h[i] == WithoutBlock
    requires h[k].WithBlock? && (!h[k].block.Finishes? || h[k].setup.Fails?)
    ensures After(h) == Stored && Yields(h) == 1 && Setups(h) == (if h[k].block.Finishes? then 1 else 0)
    ensures h[k].block.Breaks? ==> ReplyAt(h, k) == ReturnsBreakValue
    ensures !h[k].block.Breaks? ==> ReplyAt(h, k).Raises?
    ensures forall i :: k < i < |h| ==> ReplyAt(h, i) == ReturnsStored(())
  {
    var p := h[..k];
    AbsentIffNoBlock(p);
    SetupAtMostOnce(p);
    assert h[..k + 1][..k] == p;
    LatchIsPermanent(h, k + 1);
  }
}
