/** `get_or_connect` of src/channel_cache.rs, by itself and under interleaved tasks. */
module ChannelCache {
  import opened Prelude
  import opened MethodPath
  import Options
  import Text

  datatype Key = Key(host: string, tls: Option<Options.TlsConfig>)

  /** A connection: which one it is, and what it was built from. */
  datatype Channel = Channel(serial: nat, scheme: string, host: string, tls: Option<Options.TlsConfig>)

  function KeyOf(endpoint: string, tls: Option<Options.TlsConfig>): Result<Key, GrpcError> {
    match ValidateEndpoint(endpoint)
    case Ok(host) => Ok(Key(host, tls))
    case Err(e) => Err(e)
  }

  function Scheme(tls: Option<Options.TlsConfig>): string {
    if tls.Some? then "https" else "http"
  }

  function Build(key: Key, serial: nat): Channel {
    Channel(serial, Scheme(key.tls), key.host, key.tls)
  }

  predicate BuiltFor(channel: Channel, key: Key) {
    channel == Build(key, channel.serial)
  }

  /** The static map, behind its lock. */
  class Cache {
    var channels: map<Key, Channel>
    var dialled: nat

    ghost predicate Valid()
      reads this
    {
      forall key :: key in channels ==> BuiltFor(channels[key], key) && channels[key].serial < dialled
    }

    constructor ()
      ensures Valid() && channels == map[]
    {
      channels, dialled := map[], 0;
    }

    /** `entry(key).or_insert(channel)`: the first one in stays. */
    method OrInsert(key: Key, channel: Channel) returns (stored: Channel)
      requires Valid() && BuiltFor(channel, key) && channel.serial < dialled
      modifies `channels
      ensures Valid()
      ensures stored == if key in old(channels) then old(channels)[key] else channel
      ensures channels == old(channels)[key := stored]
    {
      if key !in channels {
        channels := channels[key := channel];
      }
      stored := channels[key];
      assert channels == old(channels)[key := stored];
    }

    /** One task alone. Whether connecting works is up to the network. */
    method GetOrConnect(endpoint: string, tls: Option<Options.TlsConfig>, reachable: Key -> bool)
      returns (r: Result<Channel, GrpcError>)
      requires Valid()
      modifies this
      ensures Valid()
      ensures r.Err? ==> channels == old(channels)
      ensures r.Ok? ==>
                && KeyOf(endpoint, tls).Ok?
                && var key := KeyOf(endpoint, tls).value;
                   channels == old(channels)[key := r.value] && (key in old(channels) ==> r.value == old(channels)[key])
      ensures r.Ok? <==>
                && KeyOf(endpoint, tls).Ok?
                && (KeyOf(endpoint, tls).value in old(channels) || reachable(KeyOf(endpoint, tls).value))
      ensures r.Ok? ==> BuiltFor(r.value, KeyOf(endpoint, tls).value)
    {
      var key;
      match KeyOf(endpoint, tls) {
        case Err(e) => return Err(e);
        case Ok(k) => key := k;
      }
      if key in channels {
        assert channels == channels[key := channels[key]];
        return Ok(channels[key]);
      }
      if !reachable(key) {
        return Err(Connection);
      }
      var channel := Build(key, dialled);
      dialled := dialled + 1;
      var stored := OrInsert(key, channel);
      return Ok(stored);
    }
  }

  // ----- Many tasks on one runtime -----

  /** A task suspends while it connects; between its miss and its insert anything can happen. */
  datatype Task =
    | Connecting(key: Key)
    | Connected(key: Key, channel: Channel)
    | Got(key: Key, channel: Channel)
    | Failed

  datatype State = State(channels: map<Key, Channel>, tasks: map<nat, Task>, dialled: nat)

  const EMPTY := State(map[], map[], 0)

  datatype Step =
    | Begin(task: nat, endpoint: string, tls: Option<Options.TlsConfig>)
    | Dial(task: nat, ok: bool)
    | Insert(task: nat)

  predicate Enabled(s: State, step: Step) {
    match step
    case Begin(task, _, _) => task !in s.tasks
    case Dial(task, _) => task in s.tasks && s.tasks[task].Connecting?
    case Insert(task) => task in s.tasks && s.tasks[task].Connected?
  }

  function Apply(s: State, step: Step): State
    requires Enabled(s, step)
  {
    match step
    case Begin(task, endpoint, tls) => (
      match KeyOf(endpoint, tls)
      case Err(_) => s.(tasks := s.tasks[task := Failed])
      case Ok(key) =>
        if key in s.channels then s.(tasks := s.tasks[task := Got(key, s.channels[key])])
        else s.(tasks := s.tasks[task := Connecting(key)]))
    case Dial(task, ok) =>
      var key := s.tasks[task].key;
      if ok then State(s.channels, s.tasks[task := Connected(key, Build(key, s.dialled))], s.dialled + 1)
      else s.(tasks := s.tasks[task := Failed])
    case Insert(task) =>
      var Connected(key, channel) := s.tasks[task];
      if key in s.channels then s.(tasks := s.tasks[task := Got(key, s.channels[key])])
      else s.(channels := s.channels[key := channel], tasks := s.tasks[task := Got(key, channel)])
  }

  predicate Run(s: State, steps: seq<Step>)
    decreases |steps|
  {
    steps == [] || (Enabled(s, steps[0]) && Run(Apply(s, steps[0]), steps[1..]))
  }

  function After(s: State, steps: seq<Step>): State
    requires Run(s, steps)
    decreases |steps|
  {
    if steps == [] then s else After(Apply(s, steps[0]), steps[1..])
  }

  predicate EntryOk(channel: Channel, key: Key, dialled: nat) {
    BuiltFor(channel, key) && channel.serial < dialled
  }

  predicate TaskOk(s: State, task: Task) {
    match task
    case Connected(key, channel) => EntryOk(channel, key, s.dialled)
    case Got(key, channel) => key in s.channels && channel == s.channels[key]
    case _ => true
  }

  /** Every answer handed out is the stored one, and every entry was built for its own key. */
  ghost predicate Inv(s: State) {
    && (forall key :: key in s.channels ==> EntryOk(s.channels[key], key, s.dialled))
    && (forall t :: t in s.tasks ==> TaskOk(s, s.tasks[t]))
  }

  /** Entries are added, never replaced or removed. */
  predicate Grows(s: State, t: State) {
    forall key :: key in s.channels ==> key in t.channels && t.channels[key] == s.channels[key]
  }

  lemma StepKeepsInv(s: State, step: Step)
    requires Inv(s) && Enabled(s, step)
    ensures Inv(Apply(s, step)) && Grows(s, Apply(s, step))
  {
    var u := Apply(s, step);
    assert TaskOk(s, if step.Begin? then Failed else s.tasks[step.task]);
    forall t | t in u.tasks ensures TaskOk(u, u.tasks[t]) {
      assert t != step.task ==> t in s.tasks && u.tasks[t] == s.tasks[t];
    }
  }

  lemma {:induction false} RunKeepsInv(s: State, steps: seq<Step>)
    requires Inv(s) && Run(s, steps)
    ensures Inv(After(s, steps)) && Grows(s, After(s, steps))
    decreases |steps|
  {
    if steps != [] {
      StepKeepsInv(s, steps[0]);
      RunKeepsInv(Apply(s, steps[0]), steps[1..]);
    }
  }

  /**
   * One logical channel per key, for every interleaving: whatever two tasks that asked for the same
   * key were given, at whatever times, it was the same channel, built from that key.
   */
  lemma OneChannelPerKey(early: seq<Step>, late: seq<Step>, t: nat, u: nat)
    requires Run(EMPTY, early) && Run(After(EMPTY, early), late)
    requires var s := After(EMPTY, early); t in s.tasks && s.tasks[t].Got?
    requires var s := After(After(EMPTY, early), late); u in s.tasks && s.tasks[u].Got?
    ensures var first := After(EMPTY, early).tasks[t];
            var second := After(After(EMPTY, early), late).tasks[u];
            first.key == second.key ==>
              && first.channel == second.channel
              && first.channel.host == first.key.host && first.channel.tls == first.key.tls
              && first.channel.scheme == if first.key.tls.Some? then "https" else "http"
  {
    RunKeepsInv(EMPTY, early);
    RunKeepsInv(After(EMPTY, early), late);
  }

  /** Where a live connection is held: in the map, or by a task that has not inserted it yet. */
  datatype Holder = Stored(key: Key) | HeldBy(task: nat)

  function SerialAt(s: State, h: Holder): Option<nat> {
    match h
    case Stored(key) => if key in s.channels then Some(s.channels[key].serial) else None
    case HeldBy(task) =>
      if task in s.tasks && s.tasks[task].Connected? then Some(s.tasks[task].channel.serial) else None
  }

  /** No connection is held in two places, so different keys never share one, nor its TLS settings. */
  ghost predicate SerialsDistinct(s: State) {
    forall g, h :: SerialAt(s, g).Some? && SerialAt(s, g) == SerialAt(s, h) ==> g == h
  }

  /** A step moves a connection from its task to the map, drops it, or makes a new one. */
  lemma StepMovesSerials(s: State, step: Step, h: Holder)
    requires Inv(s) && Enabled(s, step) && SerialAt(Apply(s, step), h).Some?
    ensures var n := SerialAt(Apply(s, step), h);
            || SerialAt(s, h) == n
            || (step.Dial? && h == HeldBy(step.task) && n == Some(s.dialled))
            || (step.Insert? && h == Stored(s.tasks[step.task].key) && SerialAt(s, HeldBy(step.task)) == n)
    ensures step.Insert? ==> h != HeldBy(step.task)
  {
  }

  lemma SerialsOld(s: State, h: Holder)
    requires Inv(s) && SerialAt(s, h).Some?
    ensures SerialAt(s, h).value < s.dialled
  {
  }

  lemma StepKeepsSerials(s: State, step: Step)
    requires Inv(s) && SerialsDistinct(s) && Enabled(s, step)
    ensures SerialsDistinct(Apply(s, step))
  {
    var t := Apply(s, step);
    forall g, h | SerialAt(t, g).Some? && SerialAt(t, g) == SerialAt(t, h) ensures g == h {
      StepMovesSerials(s, step, g);
      StepMovesSerials(s, step, h);
      if SerialAt(s, g).Some? { SerialsOld(s, g); }
      if SerialAt(s, h).Some? { SerialsOld(s, h); }
    }
  }

  lemma {:induction false} NoSharing(s: State, steps: seq<Step>)
    requires Inv(s) && SerialsDistinct(s) && Run(s, steps)
    ensures SerialsDistinct(After(s, steps))
    decreases |steps|
  {
    if steps != [] {
      StepKeepsInv(s, steps[0]);
      StepKeepsSerials(s, steps[0]);
      NoSharing(Apply(s, steps[0]), steps[1..]);
    }
  }

  /** A failed attempt leaves the map alone, and so does a hit; only a first insert changes it. */
  lemma OnlyFirstInsertWrites(s: State, step: Step)
    requires Enabled(s, step)
    ensures Apply(s, step).channels != s.channels ==>
              && step.Insert?
              && s.tasks[step.task].key !in s.channels
              && Apply(s, step).channels == s.channels[s.tasks[step.task].key := s.tasks[step.task].channel]
  {
  }

  /** A task stays, and so does its key until it fails; what it got it keeps. */
  lemma {:induction false} TaskGoesOn(s: State, steps: seq<Step>, task: nat)
    requires Run(s, steps) && task in s.tasks
    ensures task in After(s, steps).tasks
    ensures s.tasks[task].Got? ==> After(s, steps).tasks[task] == s.tasks[task]
    ensures After(s, steps).tasks[task].Got? ==>
              !s.tasks[task].Failed? && s.tasks[task].key == After(s, steps).tasks[task].key
    decreases |steps|
  {
    if steps != [] {
      TaskGoesOn(Apply(s, steps[0]), steps[1..], task);
    }
  }

  /** Some task got the entry under `key`. */
  ghost predicate WasGot(s: State, key: Key) {
    exists t :: t in s.tasks && key in s.channels && s.tasks[t] == Got(key, s.channels[key])
  }

  /** Over any run: a new entry is what a task connected and got, so failed attempts leave none. */
  lemma {:induction false} EntriesWereGot(s: State, steps: seq<Step>, key: Key)
    requires Inv(s) && Run(s, steps) && key in After(s, steps).channels && key !in s.channels
    ensures WasGot(After(s, steps), key)
    decreases |steps|
  {
    var step, rest := steps[0], steps[1..];
    var t := Apply(s, step);
    StepKeepsInv(s, step);
    if key in t.channels {
      OnlyFirstInsertWrites(s, step);
      assert t.tasks[step.task] == Got(key, t.channels[key]);
      TaskGoesOn(t, rest, step.task);
      RunKeepsInv(t, rest);
    } else {
      EntriesWereGot(t, rest, key);
    }
  }

  /** Two requests share a key exactly when they differ in blanks around the endpoint at most. */
  lemma SameKeyExactlyWhen(a: string, x: Option<Options.TlsConfig>, b: string, y: Option<Options.TlsConfig>)
    requires KeyOf(a, x).Ok? && KeyOf(b, y).Ok?
    ensures KeyOf(a, x) == KeyOf(b, y) <==> Text.Trim(a) == Text.Trim(b) && x == y
  {
  }

  lemma {:induction false} BegunWithKey(s: State, steps: seq<Step>, begin: Step)
    requires Run(s, steps) && begin.Begin? && begin in steps
    ensures begin.task in After(s, steps).tasks
    ensures After(s, steps).tasks[begin.task].Got? ==>
              KeyOf(begin.endpoint, begin.tls) == Ok(After(s, steps).tasks[begin.task].key)
    decreases |steps|
  {
    if steps[0] == begin {
      TaskGoesOn(Apply(s, begin), steps[1..], begin.task);
    } else {
      assert begin in steps[1..];
      BegunWithKey(Apply(s, steps[0]), steps[1..], begin);
    }
  }

  /**
   * Whatever two tasks asked for, in whatever interleaving: if both were given a channel, it is one
   * and the same exactly when they asked for the same endpoint, up to blanks, with the same TLS.
   */
  lemma SameChannelExactlyWhen(steps: seq<Step>, a: Step, b: Step)
    requires Run(EMPTY, steps) && a.Begin? && b.Begin? && a in steps && b in steps
    requires var s := After(EMPTY, steps);
             && a.task in s.tasks && s.tasks[a.task].Got?
             && b.task in s.tasks && s.tasks[b.task].Got?
    ensures var s := After(EMPTY, steps);
            s.tasks[a.task].channel == s.tasks[b.task].channel
            <==> Text.Trim(a.endpoint) == Text.Trim(b.endpoint) && a.tls == b.tls
  {
    var s := After(EMPTY, steps);
    BegunWithKey(EMPTY, steps, a);
    BegunWithKey(EMPTY, steps, b);
    SameKeyExactlyWhen(a.endpoint, a.tls, b.endpoint, b.tls);
    RunKeepsInv(EMPTY, steps);
    assert TaskOk(s, s.tasks[a.task]) && TaskOk(s, s.tasks[b.task]);
    NoSharing(EMPTY, steps);
    var g, h := Stored(s.tasks[a.task].key), Stored(s.tasks[b.task].key);
    assert SerialAt(s, g) == SerialAt(s, h) ==> g == h;
  }

  // ----- What becomes of one task -----

  /** A task that begins gets the cached channel, or goes to connect, or fails on its endpoint. */
  lemma {:induction false} BeginDecides(s: State, steps: seq<Step>, begin: Step)
    requires Run(s, [begin] + steps) && begin.Begin?
    ensures var t := After(s, [begin] + steps);
            match KeyOf(begin.endpoint, begin.tls)
            case Err(_) => begin.task in t.tasks && t.tasks[begin.task].Failed?
            case Ok(key) =>
              if key in s.channels then begin.task in t.tasks && t.tasks[begin.task] == Got(key, s.channels[key])
              else Apply(s, begin).tasks[begin.task] == Connecting(key)
  {
    var all := [begin] + steps;
    assert all[0] == begin && all[1..] == steps;
    TaskGoesOn(Apply(s, begin), steps, begin.task);
    FailedStays(Apply(s, begin), steps, begin.task);
  }

  lemma {:induction false} FailedStays(s: State, steps: seq<Step>, task: nat)
    requires Run(s, steps) && task in s.tasks
    ensures s.tasks[task].Failed? ==> task in After(s, steps).tasks && After(s, steps).tasks[task].Failed?
    decreases |steps|
  {
    if steps != [] {
      FailedStays(Apply(s, steps[0]), steps[1..], task);
    }
  }

  /** A failed connect is the end of its task, in any interleaving. */
  lemma {:induction false} FailedDialFails(s: State, steps: seq<Step>, task: nat)
    requires Run(s, steps) && Dial(task, false) in steps
    ensures task in After(s, steps).tasks && After(s, steps).tasks[task].Failed?
    decreases |steps|
  {
    if steps[0] == Dial(task, false) {
      FailedStays(Apply(s, steps[0]), steps[1..], task);
    } else {
      assert Dial(task, false) in steps[1..];
      FailedDialFails(Apply(s, steps[0]), steps[1..], task);
    }
  }

  /** A task that connected and inserted got a channel. */
  lemma {:induction false} InsertGets(s: State, steps: seq<Step>, task: nat)
    requires Run(s, steps) && Insert(task) in steps
    ensures task in After(s, steps).tasks && After(s, steps).tasks[task].Got?
    decreases |steps|
  {
    if steps[0] == Insert(task) {
      TaskGoesOn(Apply(s, steps[0]), steps[1..], task);
    } else {
      assert Insert(task) in steps[1..];
      InsertGets(Apply(s, steps[0]), steps[1..], task);
    }
  }

  /** The task has connected, at some step of the run or before it. */
  lemma {:induction false} ConnectedWasDialled(s: State, steps: seq<Step>, task: nat)
    requires Run(s, steps) && task in After(s, steps).tasks && After(s, steps).tasks[task].Connected?
    ensures (task in s.tasks && s.tasks[task].Connected?) || Dial(task, true) in steps
    decreases |steps|
  {
    if steps != [] {
      ConnectedWasDialled(Apply(s, steps[0]), steps[1..], task);
    }
  }

  /** Some task of the run asked for `key` and connected. */
  ghost predicate WasDialled(steps: seq<Step>, key: Key) {
    exists begin :: begin in steps && begin.Begin? && KeyOf(begin.endpoint, begin.tls) == Ok(key)
                    && Dial(begin.task, true) in steps
  }

  lemma {:induction false} TaskWasBegun(s: State, steps: seq<Step>, task: nat) returns (begin: Step)
    requires Run(s, steps) && task !in s.tasks && task in After(s, steps).tasks
    ensures begin in steps && begin.Begin? && begin.task == task
    decreases |steps|
  {
    begin := steps[0];
    if task !in Apply(s, steps[0]).tasks {
      begin := TaskWasBegun(Apply(s, steps[0]), steps[1..], task);
    }
  }

  lemma {:induction false} BegunConnected(s: State, steps: seq<Step>, begin: Step)
    requires Run(s, steps) && begin.Begin? && begin in steps
    ensures begin.task in After(s, steps).tasks
    ensures After(s, steps).tasks[begin.task].Connected? ==>
              KeyOf(begin.endpoint, begin.tls) == Ok(After(s, steps).tasks[begin.task].key)
    decreases |steps|
  {
    if steps[0] == begin {
      ConnectedKey(Apply(s, begin), steps[1..], begin.task);
    } else {
      assert begin in steps[1..];
      BegunConnected(Apply(s, steps[0]), steps[1..], begin);
    }
  }

  lemma {:induction false} ConnectedKey(s: State, steps: seq<Step>, task: nat)
    requires Run(s, steps) && task in s.tasks
    ensures task in After(s, steps).tasks
    ensures After(s, steps).tasks[task].Connected? ==>
              && (s.tasks[task].Connecting? || s.tasks[task].Connected?)
              && s.tasks[task].key == After(s, steps).tasks[task].key
    decreases |steps|
  {
    if steps != [] {
      ConnectedKey(Apply(s, steps[0]), steps[1..], task);
    }
  }

  /** Every entry there ever is was connected by a task that asked for it: no failed attempt leaves one. */
  lemma {:induction false} EntriesWereDialled(steps: seq<Step>, key: Key)
    requires Run(EMPTY, steps) && key in After(EMPTY, steps).channels
    ensures WasDialled(steps, key)
    decreases |steps|
  {
    var init, last := steps[..|steps| - 1], steps[|steps| - 1];
    assert steps == init + [last];
    RunSnoc(EMPTY, init, last);
    var s := After(EMPTY, init);
    if key in s.channels {
      EntriesWereDialled(init, key);
    } else {
      OnlyFirstInsertWrites(s, last);
      ConnectedWasDialled(EMPTY, init, last.task);
      var begin := TaskWasBegun(EMPTY, init, last.task);
      BegunConnected(EMPTY, init, begin);
    }
  }

  lemma {:induction false} RunSnoc(s: State, steps: seq<Step>, last: Step)
    requires Run(s, steps + [last])
    ensures Run(s, steps) && Enabled(After(s, steps), last)
    ensures After(s, steps + [last]) == Apply(After(s, steps), last)
    decreases |steps|
  {
    var all := steps + [last];
    if steps == [] {
      assert all[1..] == [];
    } else {
      assert all[0] == steps[0] && all[1..] == steps[1..] + [last];
      RunSnoc(Apply(s, steps[0]), steps[1..], last);
    }
  }

  /** No task is ever stuck, and the network may answer either way: only an ended task has no step left. */
  lemma NotStuck(s: State, task: nat, ok: bool)
    requires task in s.tasks
    ensures match s.tasks[task]
            case Connecting(_) => Enabled(s, Dial(task, ok))
            case Connected(_, _) => Enabled(s, Insert(task))
            case _ => !Enabled(s, Dial(task, ok)) && !Enabled(s, Insert(task))
  {
  }
}
