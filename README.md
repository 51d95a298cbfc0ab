# MailJack core: the configuration latch and attribute resolution

MailJack appends tracking query parameters to the links of outgoing mail.
The parameter values come from user-supplied procs ("trackables"), which are
evaluated per message on the mailer instance. This project models the two
pieces of logic in `lib/mail_jack.rb`:

- **The one-shot configuration latch.** `MailJack.config` stores a fresh
  `Config` in the process-global `@@config`. It then yields it to the
  caller's block and runs the setup: accessors on `Mail::Message`, decoration
  of the mailer classes, and registration of the interceptor. Last, it sets
  `configured`. Once any `Config` is stored, every later call returns that
  object and does nothing else. With nothing stored and no block, the call
  raises `ArgumentError`. `MailJack.configured?` asks the stored Config's
  `configured?`, which is assumed to return the flag set at line 81.
- **Attribute resolution.** `MailJack.fetch_attributes(mailer)` walks the
  ordered `trackables` Hash. It calls each proc on the mailer and stores the
  result under the attribute name in a fresh Hash.

Layout:

- `ruby.dfy` (module `Ruby`): nil-or-value, exception objects, and the
  outcome of a call into outside code (`Completes` or `Fails`).
- `ordered_hash.dfy` (module `OrderedHash`): a Ruby Hash as a sequence of
  (key, value) pairs in insertion order. `Put` is `h[k] = v` and `Lookup` is
  `h[k]`.
- `attributes.dfy` (module `Attributes`): procs as uninterpreted functions
  `M -> Call<V>` that return or raise. `Resolve` is the reference definition
  of `fetch_attributes`, and the lemmas about it are here.
- `latch.dfy` (module `Latch`): the latch as a state machine. Its phases are
  `Absent`, `Stored` (stored but never configured) and `Configured`. `Next`
  is the effect of one call of `config`. `After`, `Yields` and `Setups` fold
  `Next` over a history of calls. The induction lemmas about histories live
  here as well.
- `mail_jack.dfy` (module `MailJack`): the imperative model. Class `Config`
  holds the fields this file reads and sets. Class `Globals` holds `@@config`
  (null until defined), with ghost counters for block runs and setup runs and
  a ghost history of calls. `Globals.Valid()` ties the real state to the
  `Latch` functions of that history. `Globals.Config` returns a
  `Latch.Reply` and is proved against `Latch.Next`, and `Globals.FetchAttributes` (a loop over the trackables,
  using `Put`) is proved against `Attributes.Resolve`.

Behaviour of the code worth noting:

- Values are stored as the procs return them. They are not turned into
  strings in this file.
- A raising proc simply propagates its exception. Nothing catches it, so no
  partial Hash is ever returned.
- A missing configuration is an `ArgumentError` raised by `config`.
- The first `config` call that completes returns `true`, the value of the
  final assignment `@@config.configured = true`. It does not return the
  `Config`. Only later calls return the stored object.

Inputs the model takes as parameters:

- the configuration block: as a `Block` value giving what the Config holds
  once the block is done, and whether the block finishes, leaves with
  `break` or raises. A `break` makes `config` return the break value at once
  (nil for a bare `break`): the Config stays stored, the setup is skipped,
  and nothing is raised;
- the setup steps: as one `Step` that completes or fails;
- each proc: as a function of the mailer.

## Model

| member | source | states |
|---|---|---|
| `OrderedHash.Put` | lib/mail_jack.rb:93 | `map[attribute] = value`: the stored key now maps to the value, every other key keeps its value, a new key is appended at the end and an existing one keeps its position, and distinct keys stay distinct |
| `Attributes.FirstRaise` | lib/mail_jack.rb:92-94 | the first proc, in trackables order, whose call on the mailer raises; none exactly when every proc returns |
| `Attributes.Invoked` | lib/mail_jack.rb:92-94 | how many procs the `each` loop calls: all of them when none raises, otherwise up to and including the first that raises, and every earlier one returned |
| `Attributes.Resolve` | lib/mail_jack.rb:90-96 | the result is a Hash exactly when no proc raises; its keys are the trackables' keys in the same order; entry i holds proc i's value as returned; empty trackables give an empty Hash; otherwise the exception of the first raising proc propagates and nothing else comes out |
| `Attributes.FetchedLookup` | lib/mail_jack.rb:93 | looking a name up in the fetched Hash gives that name's proc applied to the mailer; a name that is not trackable is absent |
| `Latch.Next` | lib/mail_jack.rb:55-82 | one call of `config`: it yields exactly when nothing is stored and a block is given; the setup runs exactly when it yielded and the block finished (did not break or raise); nothing is stored afterwards exactly when nothing was and no block came; a stored Config is returned and keeps its phase; the phase becomes configured only by a completed setup |
| `Latch.SetupAtMostOnce` | lib/mail_jack.rb:58-81 | over any history of calls, the block runs at most once and the setup at most once, never without the block; a Config is stored exactly when the block has run; configured implies the setup ran |
| `Latch.AbsentIffNoBlock` | lib/mail_jack.rb:58-60 | nothing is stored exactly as long as every call came without a block, and each such call raised ArgumentError with the library's message |
| `Latch.LatchIsPermanent` | lib/mail_jack.rb:58 | once a Config is stored, every later call returns it, and the phase and the block and setup counts never change again |
| `Latch.ConfiguredIff` | lib/mail_jack.rb:81-86 | `configured?` holds after a history exactly when its first call with a block completed both the block and the setup |
| `Latch.FailedSetupSticks` | lib/mail_jack.rb:58-81 | if the first call with a block breaks out of the block, or raises in the block or in the setup, that call returns the break value or raises, the Config stays stored and unconfigured forever, and every later call returns it without yielding or running the setup again |
| `MailJack.Config.constructor` | lib/mail_jack.rb:63 | `Config.new` is not configured and has no trackables |
| `MailJack.Globals.Config` | lib/mail_jack.rb:55-82 | the new phase and the reply are those of `Latch.Next`; a stored Config is returned unchanged with no block or setup run; with nothing stored and no block it raises ArgumentError and stores nothing; with a block it stores a fresh Config carrying the block's trackables and mailers, configured exactly when the block finishes and the setup completes; a block that breaks or raises skips the setup; the setup never runs twice |
| `MailJack.Globals.IsConfigured` | lib/mail_jack.rb:84-86 | true exactly when the first call with a block completed its block and its setup; false before any call |
| `MailJack.Globals.StoredTrackables` | lib/mail_jack.rb:98-100 | the stored Config's trackables, whose names are distinct when present |
| `MailJack.Globals.FetchAttributes` | lib/mail_jack.rb:90-96 | the result equals `Attributes.Resolve` of the stored trackables on the mailer; the procs called are the trackables' names in insertion order, each once, up to the first that raises |

## Left out

- Setup steps (`Mail::Message.class_eval`/`attr_accessor`, `classify.constantize.send(:include, Mailer)`, `Mail.register_interceptor`, lib/mail_jack.rb:68-79): calls into Rails and Mail. They are one opaque `Step` plus a ghost counter, not modelled behaviour.
- Proc bodies (the examples in the comments at lib/mail_jack.rb:32-34): user code, modelled as uninterpreted functions of the mailer. Side effects of a proc are not modelled; the ghost list of called names stands in for the order of calls.
- `MailJack::Config` internals (`mailers`, `href_filter`, `trackable`, `configured?`): `mail_jack/config` is not part of this model. Only the fields this file reads or sets are modelled. `Config.new` is assumed to start unconfigured, with nil trackables and no mailers. `Block.mailers` is what the Config holds after the block, default included. A nil default would make the mailer loop at line 74 raise `NoMethodError`, which the opaque setup step covers as a failing setup.
- Query-string merging and href rewriting: `mail_jack/interceptor` and `mail_jack/params_decoder` are not part of this model.
- The Railtie and the Mailer integration (`mail_jack/railtie`, `mail_jack/mailer`): Rails plumbing, not part of this model.
- The `NameError` raised by `trackables` and `fetch_attributes` while `@@config` is undefined (lib/mail_jack.rb:99): stated as the precondition `config != null`. With nil trackables, `trackables` just returns nil.
- The `NoMethodError` from `.each` when `fetch_attributes` runs with nil trackables (lib/mail_jack.rb:92): stated as a precondition.
- `MailJack.Globals.Config`: the model assumes that only line 81 ever writes `configured`, and that the block writes only `trackables` and `mailers`. In Ruby, the Config object is yielded to the block (line 64) and returned to every later caller (line 58), and `configured=` is public. So user code could set the flag itself, for instance a block that sets it and then raises. The model captures none of this. `Latch.FailedSetupSticks` ("unconfigured forever") and `Latch.LatchIsPermanent` ("the phase never changes") hold only under this assumption.
- `MailJack.Globals.Config`: a block that itself calls `MailJack.config` re-entrantly is not modelled; the block is a value describing what it assigns and whether it raises.
- `MailJack.Globals.IsConfigured`: Ruby returns `nil` rather than `false` when `@@config` is undefined. Otherwise it returns whatever `Config#configured?` returns, which is assumed to be the flag or something with the same truthiness. The model gives a boolean.
- The `kind_of?(Config)` test at lib/mail_jack.rb:58: this file only ever stores a `Config`, so it is modelled as "a Config is stored".
- Concurrency: the class variable is shared by all threads; calls are modelled as sequential.
