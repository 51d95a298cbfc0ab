/** Module MailJack of lib/mail_jack.rb: the process-global configuration
    `@@config`, its one-shot `config` latch, `configured?`, `trackables`
    and `fetch_attributes`. */
module MailJack {
  import opened Ruby
  import opened OrderedHash
  import opened Attributes
  import opened Latch

  /** The fields of a `MailJack::Config` that this module reads or sets. */
  class Config<!M, V> {
    var configured: bool
    var trackables: Option<Trackables<M, V>>
    var mailers: seq<string>

    /** `Config.new`: not configured, no trackables, no mailers. */
    constructor ()
      ensures !configured && trackables == None && mailers == []
    {
      configured := false;
      trackables := None;
      mailers := [];
    }
  }

  /** What a configuration block does to the Config it is given: the
      trackables and mailers the Config holds once the block is done, and how
      the block then ends (finishes, breaks out or raises). */
  datatype Block<!M, V> = Block(trackables: Option<Trackables<M, V>>, mailers: seq<string>, ends: BlockExit)

  function CallOf<M, V>(block: Option<Block<M, V>>, setup: Step): ConfigCall
  {
    match block
    case None => WithoutBlock
    case Some(b) => WithBlock(b.ends, setup)
  }

  /** The class variables of module MailJack: `@@config` (null while it is
      not defined), with ghost records of the calls to `config` so far and
      of how often the block and the setup ran. */
  class Globals<!M, V> {
    var config: Config?<M, V>
    ghost var history: seq<ConfigCall>
    ghost var blockRuns: nat
    ghost var setupRuns: nat

    function CurrentPhase(): Phase
      reads this, config
    {
      if config == null then Absent
      else if config.configured then Configured
      else Stored
    }

    ghost predicate Valid()
      reads this, config
    {
      && CurrentPhase() == After(history)
      && blockRuns == Yields(history)
      && setupRuns == Setups(history)
      && (config != null && config.trackables.Some? ==> DistinctKeys(config.trackables.value))
    }

    /** A fresh process: `@@config` is not defined. */
    constructor ()
      ensures Valid() && config == null && history == []
    {
      config := null;
      history := [];
      blockRuns := 0;
      setupRuns := 0;
    }

    /** `MailJack.config`, called with `block` (None: no block given); the
        setup after the block (accessors on Mail::Message, decoration of the
        mailers, interceptor registration) ends as `setup` says. */
    method Config(block: Option<Block<M, V>>, setup: Step) returns (r: Reply<Config<M, V>>)
      requires Valid()
      requires block.Some? && block.value.trackables.Some? ==> DistinctKeys(block.value.trackables.value)
      modifies this
      ensures Valid()
      ensures history == old(history) + [CallOf(block, setup)]
      ensures CurrentPhase() == Next(old(CurrentPhase()), CallOf(block, setup)).phase
      ensures Shape(r) == Next(old(CurrentPhase()), CallOf(block, setup)).reply
      ensures setupRuns <= blockRuns <= 1
      ensures old(config) != null ==>
        r == ReturnsStored(old(config)) && config == old(config) &&
        blockRuns == old(blockRuns) && setupRuns == old(setupRuns)
      ensures old(config) == null && block.None? ==>
        config == null && r == Raises(ArgumentError(NotConfiguredMessage))
      ensures old(config) == null && block.Some? ==>
        fresh(config) && config.trackables == block.value.trackables &&
        config.mailers == block.value.mailers &&
        config.configured == (block.value.ends.Finishes? && setup.Completes?) &&
        blockRuns == 1 && setupRuns == (if block.value.ends.Finishes? then 1 else 0)
    {
      ghost var call := CallOf(block, setup);
      ghost var h := history + [call];
      assert h[..|h| - 1] == history;
      SetupAtMostOnce(history);
      SetupAtMostOnce(h);
      history := h;
      if config != null {
        return ReturnsStored(config);
      }
      if block.None? {
        return Raises(ArgumentError(NotConfiguredMessage));
      }
      var c := new Config();
      config := c;
      blockRuns := blockRuns + 1;
      c.trackables := block.value.trackables;
      c.mailers := block.value.mailers;
      match block.value.ends {
        case RaisesOut(e) => return Raises(e);
        case Breaks => return ReturnsBreakValue;
        case Finishes =>
      }
      setupRuns := setupRuns + 1;
      if setup.Fails? {
        return Raises(setup.error);
      }
      c.configured := true;
      r := ReturnsTrue;
    }

    /** `MailJack.configured?`. */
    function IsConfigured(): (b: bool)
      requires Valid()
      reads this, config
      ensures b <==> FirstBlockCompleted(history)
      ensures history == [] ==> !b
    {
      ConfiguredIff(history);
      config != null && config.configured
    }

    /** `MailJack.trackables`: the stored Config's trackables (nil or a Hash). */
    function StoredTrackables(): (t: Option<Trackables<M, V>>)
      requires Valid() && config != null
      reads this, config
      ensures t.Some? ==> DistinctKeys(t.value)
    {
      config.trackables
    }

    /** `MailJack.fetch_attributes(mailer)`: a fresh Hash filled by calling
        each trackable proc on `mailer` in order; `calls` lists the names
        whose procs were called. */
    method FetchAttributes(mailer: M) returns (r: Fetch<V>, ghost calls: seq<string>)
      requires Valid() && config != null && config.trackables.Some?
      ensures r == Resolve(config.trackables.value, mailer)
      ensures calls == Keys(config.trackables.value)[..Invoked(config.trackables.value, mailer)]
    {
      var t := StoredTrackables().value;
      var fetched: Hash<V> := [];
      calls := [];
      var i := 0;
      while i < |t|
        invariant 0 <= i <= |t|
        invariant |fetched| == i
        invariant forall j :: 0 <= j < i ==> t[j].1(mailer).Returned? && fetched[j] == (t[j].0, t[j].1(mailer).value)
        invariant calls == Keys(t)[..i]
      {
        var (attribute, proc) := t[i];
        calls := calls + [attribute];
        var result := proc(mailer);
        if result.Raised? {
          assert FirstRaise(t, mailer) == Some(i);
          assert Keys(t)[..i + 1] == Keys(t)[..i] + [attribute];
          return Propagated(result.error), calls;
        }
        assert attribute !in Keys(fetched) by {
          forall j | 0 <= j < i ensures Keys(fetched)[j] != attribute {
            assert Keys(fetched)[j] == t[j].0;
          }
        }
        fetched := Put(fetched, attribute, result.value);
        i := i + 1;
      }
      assert FirstRaise(t, mailer) == None;
      return Fetched(fetched), calls;
    }
  }
}
