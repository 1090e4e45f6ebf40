/**
 * The budget fuse: which cap a provider spends against, where a total stands
 * against it, and the guard that counts before a call is made - with a cache of
 * totals any number of guards share, under caps of their own.
 */
module Budget {
  import opened Products
  import opened Wrappers

  datatype Provider = YoutubeData | YoutubeAnalytics | Gemini | Elevenlabs | OpenaiTts | GoogleTts | Cartesia | System

  datatype Key = YoutubeUnitsDay | GeminiUsdDay | TtsUsdMonth

  const CACHE_TTL_MS := 60000

  /** The cap a provider spends against; none for one without a cap. */
  function ScopeFor(provider: Provider): Option<Key> {
    match provider
    case YoutubeData => Some(YoutubeUnitsDay)
    case Gemini => Some(GeminiUsdDay)
    case Elevenlabs => Some(TtsUsdMonth)
    case OpenaiTts => Some(TtsUsdMonth)
    case GoogleTts => Some(TtsUsdMonth)
    case Cartesia => Some(TtsUsdMonth)
    case YoutubeAnalytics => None
    case System => None
  }

  /** The providers whose rows a cap sums. */
  function ProvidersOf(key: Key): set<Provider> {
    match key
    case YoutubeUnitsDay => {YoutubeData}
    case GeminiUsdDay => {Gemini}
    case TtsUsdMonth => {Elevenlabs, OpenaiTts, GoogleTts, Cartesia}
  }

  /**
   * A provider spends against a cap exactly when the cap sums its rows: no spend is
   * counted twice, none against no cap it has.
   */
  lemma CapsSumTheirOwn(provider: Provider, key: Key)
    ensures provider in ProvidersOf(key) <==> ScopeFor(provider) == Some(key)
  {
  }

  datatype Check = Check(key: Key, spent: real, cap: real, ratio: real, exceeded: bool, warn: bool)

  predicate Warns(spent: real, cap: real) {
    spent * 5.0 >= cap * 4.0
  }

  /** Where a total stands against a cap; a cap that is not positive and a negative total are refused. */
  function CheckOf(key: Key, spent: real, cap: real): Option<Check> {
    if cap <= 0.0 || spent < 0.0 then None
    else Some(Check(key, spent, cap, spent / cap, spent >= cap, Warns(spent, cap)))
  }

  /** The two flags are what the ratio says, and a cap that is reached was warned of. */
  lemma FlagsAgreeWithTheRatio(key: Key, spent: real, cap: real)
    requires cap > 0.0 && spent >= 0.0
    ensures var check := CheckOf(key, spent, cap).value;
            && (check.exceeded <==> check.ratio >= 1.0) && (check.warn <==> check.ratio >= 0.8)
            && (check.exceeded ==> check.warn)
  {
    hide Times, Over, Warns;
    var ratio := Over(spent, cap);
    RatioIs(key, spent, cap);
    OverTimes(spent, cap);
    ShareOf(cap);
    if ratio >= 1.0 {
      Grows(1.0, ratio, cap);
    } else {
      GrowsStrictly(ratio, 1.0, cap);
    }
    if ratio >= 0.8 {
      Grows(0.8, ratio, cap);
    } else {
      GrowsStrictly(ratio, 0.8, cap);
    }
  }

  lemma RatioIs(key: Key, spent: real, cap: real)
    requires cap > 0.0 && spent >= 0.0
    ensures CheckOf(key, spent, cap)
            == Some(Check(key, spent, cap, Over(spent, cap), spent >= cap, spent * 5.0 >= cap * 4.0))
  {
  }

  lemma ShareOf(cap: real)
    ensures Times(1.0, cap) == cap && Times(0.8, cap) * 5.0 == cap * 4.0
  {
  }

  // ------------------------------------------------------------------
  // The log, the windows and their totals.

  /** A row of the usage log, in the measure of the cap. */
  datatype Row = Row(provider: Provider, at: nat, amount: real)

  /** The window of a cap begins anew: its day or month rolls over, in its own zone. */
  datatype Roll = Roll(key: Key, at: nat)

  /** The rows of a cap from `from` up to, not including, `until`. */
  function Sum(log: seq<Row>, key: Key, from: int, until: int): real {
    if log == [] then 0.0
    else
      var row := log[|log| - 1];
      Sum(log[..|log| - 1], key, from, until)
      + if row.provider in ProvidersOf(key) && from <= row.at < until then row.amount else 0.0
  }

  /** Where the window of a cap begins: at its latest rollover, or at the beginning of time. */
  function WindowStart(rolls: seq<Roll>, key: Key): nat {
    if rolls == [] then 0
    else if rolls[|rolls| - 1].key == key then rolls[|rolls| - 1].at
    else WindowStart(rolls[..|rolls| - 1], key)
  }

  predicate AmountsAreReal(log: seq<Row>) {
    forall i | 0 <= i < |log| :: log[i].amount >= 0.0
  }

  predicate RowsBy(log: seq<Row>, at: nat) {
    forall i | 0 <= i < |log| :: log[i].at <= at
  }

  lemma {:induction false} SumsAreNotNegative(log: seq<Row>, key: Key, from: int, until: int)
    requires AmountsAreReal(log)
    ensures Sum(log, key, from, until) >= 0.0
  {
    if log != [] {
      SumsAreNotNegative(log[..|log| - 1], key, from, until);
    }
  }

  lemma {:induction false} SumSplitsTheLog(a: seq<Row>, b: seq<Row>, key: Key, from: int, until: int)
    ensures Sum(a + b, key, from, until) == Sum(a, key, from, until) + Sum(b, key, from, until)
  {
    if b == [] {
      assert a + b == a;
    } else {
      assert (a + b)[..|a + b| - 1] == a + b[..|b| - 1];
      SumSplitsTheLog(a, b[..|b| - 1], key, from, until);
    }
  }

  /** A row counts towards a cap exactly if its provider spends against it and it is in the window. */
  lemma ARowCountsExactlyWhen(row: Row, key: Key, from: int, until: int)
    ensures Sum([row], key, from, until)
            == if ScopeFor(row.provider) == Some(key) && from <= row.at < until then row.amount else 0.0
  {
    assert [row][..0] == [];
    CapsSumTheirOwn(row.provider, key);
  }

  lemma {:induction false} SumSplitsTheTime(log: seq<Row>, key: Key, from: int, mid: int, until: int)
    requires from <= mid && (mid <= until || RowsBefore(log, until))
    ensures Sum(log, key, from, until) == Sum(log, key, from, mid) + Sum(log, key, mid, until)
  {
    if log != [] {
      SumSplitsTheTime(log[..|log| - 1], key, from, mid, until);
    }
  }

  predicate RowsBefore(log: seq<Row>, until: int) {
    forall i | 0 <= i < |log| :: log[i].at < until
  }

  /** Of rows that are all there by then, a later end of the window counts no more. */
  lemma {:induction false} SumEndsWithTheRows(log: seq<Row>, key: Key, from: int, until: int, later: int)
    requires RowsBefore(log, until) && until <= later
    ensures Sum(log, key, from, later) == Sum(log, key, from, until)
  {
    if log != [] {
      SumEndsWithTheRows(log[..|log| - 1], key, from, until, later);
    }
  }

  lemma {:induction false} WindowsOnlyMoveOn(rolls: seq<Roll>, n: nat, key: Key, at: nat)
    requires n <= |rolls|
    requires forall i | 0 <= i < n :: rolls[i].at <= at
    requires forall i | n <= i < |rolls| :: at <= rolls[i].at
    ensures WindowStart(rolls[..n], key) <= at
    ensures WindowStart(rolls[..n], key) <= WindowStart(rolls, key)
    ensures if RolledIn(rolls[n..], key) then at <= WindowStart(rolls, key)
            else WindowStart(rolls, key) == WindowStart(rolls[..n], key)
    decreases |rolls|
  {
    if n == |rolls| {
      assert rolls[..n] == rolls;
      StartIsBy(rolls, key, at);
    } else {
      var last := |rolls| - 1;
      assert rolls[..last][..n] == rolls[..n] && rolls[n..] == rolls[..last][n..] + [rolls[last]];
      WindowsOnlyMoveOn(rolls[..last], n, key, at);
    }
  }

  lemma {:induction false} StartIsBy(rolls: seq<Roll>, key: Key, at: nat)
    requires forall i | 0 <= i < |rolls| :: rolls[i].at <= at
    ensures WindowStart(rolls, key) <= at
  {
    if rolls != [] {
      StartIsBy(rolls[..|rolls| - 1], key, at);
    }
  }

  predicate RolledIn(rolls: seq<Roll>, key: Key) {
    exists roll <- rolls :: roll.key == key
  }

  // ------------------------------------------------------------------
  // The guard as a machine of events.

  /** A moment of a history: the time, and how much of the log and of the rollovers was there. */
  datatype Moment = Moment(at: nat, length: nat, rolled: nat)

  /** A count of the log at a moment, over the window of the cap in force then. */
  datatype Count = Count(when: Moment, spent: real)

  /** A value of the cache: one a guard wrote, of a count and under a cap, or one nobody can read. */
  datatype Value = Written(count: Count, cap: real, warn: bool) | Unreadable

  datatype Entry = Entry(value: Value, storedAt: nat)

  datatype Source = FromCache(entry: Entry, read: Moment) | FromCount(counted: Count)

  datatype Failure = CapRefused | CountFailed | Exceeded(spent: real, cap: real)

  datatype Phase =
    | Asking
    | Counting
    | Storing(counted: Count)
    | Answered(check: Check, source: Source)
    | Threw(failure: Failure)

  /** A call of a guard: its cap, whether the guard has a cache, and the moment it came. */
  datatype Call = Call(key: Key, cap: real, cached: bool, asked: Moment, phase: Phase)

  datatype State = State(now: nat, log: seq<Row>, rolls: seq<Roll>, cache: map<Key, Entry>, calls: seq<Call>)

  datatype Event =
    | Passes(ms: nat)
    | Spends(row: Row)
    | WindowRolls(key: Key)
    | Asks(key: Key, cap: real, cached: bool)
    | CacheIsRead(call: nat, fails: bool)
    | LogIsCounted(call: nat, fails: bool)
    | CacheIsWritten(call: nat, fails: bool)
    | CacheLoses(key: Key)
    | CacheIsSpoilt(key: Key)

  const INITIAL := State(0, [], [], map[], [])

  function Here(s: State): Moment {
    Moment(s.now, |s.log|, |s.rolls|)
  }

  predicate InHistory(s: State, m: Moment) {
    m.length <= |s.log| && m.rolled <= |s.rolls|
  }

  /** Where the window of a cap began at a moment of the history. */
  function StartAt(s: State, key: Key, m: Moment): nat
    requires InHistory(s, m)
  {
    WindowStart(s.rolls[..m.rolled], key)
  }

  /** What the log held of a cap at a moment: its rows from the start of the window up to the moment, both included. */
  function SpentAt(s: State, key: Key, m: Moment): real
    requires InHistory(s, m)
  {
    Sum(s.log[..m.length], key, StartAt(s, key, m), m.at + 1)
  }

  predicate Enabled(s: State, e: Event) {
    match e
    case Passes(_) => true
    case Spends(row) => row.at == s.now && row.amount >= 0.0
    case WindowRolls(_) => true
    case Asks(_, _, _) => true
    case CacheIsRead(i, _) => i < |s.calls| && s.calls[i].phase.Asking? && s.calls[i].cached
    case LogIsCounted(i, _) =>
      i < |s.calls| && (s.calls[i].phase.Counting? || (s.calls[i].phase.Asking? && !s.calls[i].cached))
    case CacheIsWritten(i, _) => i < |s.calls| && s.calls[i].phase.Storing?
    case CacheLoses(_) => true
    case CacheIsSpoilt(_) => true
  }

  /** What the cache gives for a key: an entry past its time is gone. */
  function Found(cache: map<Key, Entry>, key: Key, now: nat): Option<Entry> {
    if key in cache && now <= cache[key].storedAt + CACHE_TTL_MS then Some(cache[key]) else None
  }

  /** What a read of the cache leads to: an answer from it, or a count. */
  function AfterRead(call: Call, entry: Option<Entry>, read: Moment): Phase {
    if entry.None? || entry.value.value.Unreadable? || entry.value.value.warn then Counting
    else match CheckOf(call.key, entry.value.value.count.spent, call.cap)
      case None => Threw(CapRefused)
      case Some(check) => if check.warn then Counting else Answered(check, FromCache(entry.value, read))
  }

  /** What a count leads to: without a cache the answer itself. */
  function AfterCount(call: Call, counted: Count): Phase {
    match CheckOf(call.key, counted.spent, call.cap)
    case None => Threw(CapRefused)
    case Some(check) => if call.cached then Storing(counted) else Answered(check, FromCount(counted))
  }

  function AfterStore(call: Call, counted: Count): Phase {
    match CheckOf(call.key, counted.spent, call.cap)
    case None => Threw(CapRefused)
    case Some(check) => Answered(check, FromCount(counted))
  }

  function Goes(s: State, i: nat, phase: Phase): State
    requires i < |s.calls|
  {
    s.(calls := s.calls[i := s.calls[i].(phase := phase)])
  }

  function CountNow(s: State, key: Key): Count {
    Count(Here(s), SpentAt(s, key, Here(s)))
  }

  function Next(s: State, e: Event): State {
    if !Enabled(s, e) then s else
    match e
    case Passes(ms) => s.(now := s.now + ms)
    case Spends(row) => s.(log := s.log + [row])
    case WindowRolls(key) => s.(rolls := s.rolls + [Roll(key, s.now)])
    case Asks(key, cap, cached) => s.(calls := s.calls + [Call(key, cap, cached, Here(s), Asking)])
    case CacheIsRead(i, fails) =>
      var call := s.calls[i];
      Goes(s, i, if fails then Counting else AfterRead(call, Found(s.cache, call.key, s.now), Here(s)))
    case LogIsCounted(i, fails) =>
      var call := s.calls[i];
      Goes(s, i, if fails then Threw(CountFailed) else AfterCount(call, CountNow(s, call.key)))
    case CacheIsWritten(i, fails) =>
      var call := s.calls[i];
      var counted := call.phase.counted;
      var went := Goes(s, i, AfterStore(call, counted));
      if fails then went
      else went.(cache := s.cache[call.key := Entry(Written(counted, call.cap, Warns(counted.spent, call.cap)), s.now)])
    case CacheLoses(key) => s.(cache := s.cache - {key})
    case CacheIsSpoilt(key) => s.(cache := s.cache[key := Entry(Unreadable, s.now)])
  }

  function Run(s: State, events: seq<Event>): State
    decreases |events|
  {
    if events == [] then s else Run(Next(s, events[0]), events[1..])
  }

  /** What `assert` makes of the answer of a call. */
  function Asserted(phase: Phase): Phase {
    if phase.Answered? && phase.check.exceeded then Threw(Exceeded(phase.check.spent, phase.check.cap)) else phase
  }

  // ------------------------------------------------------------------
  // What every event keeps.

  /**
   * The moment was: what of the log and of the rollovers it had is from then or before,
   * the rest from then or later.
   */
  predicate Was(s: State, m: Moment) {
    && InHistory(s, m) && m.at <= s.now
    && (forall i | 0 <= i < |s.log| :: if i < m.length then s.log[i].at <= m.at else m.at <= s.log[i].at)
    && (forall i | 0 <= i < |s.rolls| :: if i < m.rolled then s.rolls[i].at <= m.at else m.at <= s.rolls[i].at)
  }

  predicate NotBefore(m: Moment, earlier: Moment) {
    earlier.at <= m.at && earlier.length <= m.length && earlier.rolled <= m.rolled
  }

  /** A count is the total of the log as it was, over the window in force then. */
  predicate IsCounted(s: State, key: Key, counted: Count) {
    Was(s, counted.when) && counted.spent == SpentAt(s, key, counted.when)
  }

  predicate EntryIsTrue(s: State, key: Key, entry: Entry) {
    && entry.storedAt <= s.now
    && (entry.value.Written? ==>
          && IsCounted(s, key, entry.value.count) && entry.value.count.when.at <= entry.storedAt
             && entry.value.cap > 0.0
          && (entry.value.warn <==> Warns(entry.value.count.spent, entry.value.cap)))
  }

  /** A count made for this call: not before it came. */
  predicate IsFresh(s: State, call: Call, counted: Count) {
    IsCounted(s, call.key, counted) && NotBefore(counted.when, call.asked)
  }

  predicate AnswerIsTrue(s: State, call: Call, check: Check, source: Source) {
    && call.cap > 0.0
    && match source
       case FromCount(counted) => IsFresh(s, call, counted) && CheckOf(call.key, counted.spent, call.cap) == Some(check)
       case FromCache(entry, read) =>
         && EntryIsTrue(s, call.key, entry) && entry.value.Written? && call.cached
         && Was(s, read) && NotBefore(read, call.asked) && NotBefore(read, entry.value.count.when)
         && entry.storedAt <= read.at <= entry.storedAt + CACHE_TTL_MS
         && CheckOf(call.key, entry.value.count.spent, call.cap) == Some(check)
         && !Warns(check.spent, entry.value.cap) && !Warns(check.spent, call.cap)
  }

  predicate CallIsTrue(s: State, call: Call) {
    && Was(s, call.asked)
    && match call.phase
       case Asking => true
       case Counting => call.cached
       case Storing(counted) => call.cap > 0.0 && IsFresh(s, call, counted)
       case Answered(check, source) => AnswerIsTrue(s, call, check, source)
       case Threw(_) => true
  }

  predicate HistoryIsPast(s: State) {
    && AmountsAreReal(s.log)
    && (forall i | 0 <= i < |s.log| :: s.log[i].at <= s.now)
    && (forall i | 0 <= i < |s.rolls| :: s.rolls[i].at <= s.now)
  }

  predicate Sound(s: State) {
    && HistoryIsPast(s)
    && (forall key <- s.cache :: EntryIsTrue(s, key, s.cache[key]))
    && (forall i | 0 <= i < |s.calls| :: CallIsTrue(s, s.calls[i]))
  }

  /** Time passes, and what the log and the rollovers gain is of the time after. */
  predicate Later(s: State, s': State) {
    && s.now <= s'.now && s.log <= s'.log && s.rolls <= s'.rolls
    && (forall i | |s.log| <= i < |s'.log| :: s.now <= s'.log[i].at)
    && (forall i | |s.rolls| <= i < |s'.rolls| :: s.now <= s'.rolls[i].at)
  }

  lemma NowIsAMoment(s: State)
    requires HistoryIsPast(s)
    ensures Was(s, Here(s)) && forall m | Was(s, m) :: NotBefore(Here(s), m)
  {
  }

  lemma MomentsStay(s: State, s': State, m: Moment)
    requires Later(s, s') && Was(s, m)
    ensures Was(s', m)
    ensures forall key :: SpentAt(s', key, m) == SpentAt(s, key, m)
  {
    assert s'.log[..m.length] == s.log[..m.length] && s'.rolls[..m.rolled] == s.rolls[..m.rolled];
  }

  lemma EntryStaysTrue(s: State, s': State, key: Key, entry: Entry)
    requires Later(s, s') && EntryIsTrue(s, key, entry)
    ensures EntryIsTrue(s', key, entry)
  {
    hide Was, Later, SpentAt;
    if entry.value.Written? {
      MomentsStay(s, s', entry.value.count.when);
    }
    LaterIsLater(s, s');
  }

  lemma LaterIsLater(s: State, s': State)
    requires Later(s, s')
    ensures s.now <= s'.now
  {
  }

  lemma CallStaysTrue(s: State, s': State, call: Call)
    requires Later(s, s') && CallIsTrue(s, call)
    ensures CallIsTrue(s', call)
  {
    hide Was, EntryIsTrue, Later, CheckOf, Warns, SpentAt, NotBefore;
    MomentsStay(s, s', call.asked);
    match call.phase
    case Storing(counted) => MomentsStay(s, s', counted.when);
    case Answered(_, FromCount(counted)) => MomentsStay(s, s', counted.when);
    case Answered(_, FromCache(entry, read)) =>
      MomentsStay(s, s', read);
      EntryStaysTrue(s, s', call.key, entry);
    case _ =>
  }

  lemma LaterIsSound(s: State, s': State)
    requires Sound(s) && Later(s, s') && s'.cache == s.cache && s'.calls == s.calls && HistoryIsPast(s')
    ensures Sound(s')
  {
    hide CallIsTrue, EntryIsTrue, HistoryIsPast, Later;
    forall k | 0 <= k < |s'.calls| ensures CallIsTrue(s', s'.calls[k]) {
      CallStaysTrue(s, s', s.calls[k]);
    }
    forall key <- s'.cache ensures EntryIsTrue(s', key, s'.cache[key]) {
      EntryStaysTrue(s, s', key, s.cache[key]);
    }
  }

  /** A state of the same history, with calls and a cache that are true of it. */
  lemma SameHistoryIsSound(s: State, s': State)
    requires Sound(s) && s'.now == s.now && s'.log == s.log && s'.rolls == s.rolls
    requires forall k | 0 <= k < |s'.calls| :: CallIsTrue(s, s'.calls[k])
    requires forall key <- s'.cache :: EntryIsTrue(s, key, s'.cache[key])
    ensures Sound(s')
  {
    hide CallIsTrue, EntryIsTrue, HistoryIsPast, Later;
    SameIsLater(s, s');
    forall k | 0 <= k < |s'.calls| ensures CallIsTrue(s', s'.calls[k]) {
      CallStaysTrue(s, s', s'.calls[k]);
    }
    forall key <- s'.cache ensures EntryIsTrue(s', key, s'.cache[key]) {
      EntryStaysTrue(s, s', key, s'.cache[key]);
    }
  }

  lemma SameIsLater(s: State, s': State)
    requires s'.now == s.now && s'.log == s.log && s'.rolls == s.rolls
    ensures Later(s, s') && (HistoryIsPast(s) <==> HistoryIsPast(s'))
  {
  }

  lemma OneCallGoes(s: State, i: nat, phase: Phase)
    requires Sound(s) && i < |s.calls| && CallIsTrue(s, s.calls[i].(phase := phase))
    ensures Sound(Goes(s, i, phase))
  {
    hide CallIsTrue, EntryIsTrue, HistoryIsPast;
    SameHistoryIsSound(s, Goes(s, i, phase));
  }

  lemma AskKeeps(s: State, key: Key, cap: real, cached: bool)
    requires Sound(s)
    ensures Sound(Next(s, Asks(key, cap, cached)))
  {
    hide EntryIsTrue, HistoryIsPast, Was;
    NowIsAMoment(s);
    SameHistoryIsSound(s, Next(s, Asks(key, cap, cached)));
  }

  lemma ReadKeeps(s: State, i: nat, fails: bool)
    requires Sound(s) && Enabled(s, CacheIsRead(i, fails))
    ensures Sound(Next(s, CacheIsRead(i, fails)))
  {
    hide HistoryIsPast, Was, SpentAt, Warns, NotBefore;
    var call := s.calls[i];
    var phase := if fails then Counting else AfterRead(call, Found(s.cache, call.key, s.now), Here(s));
    NowIsAMoment(s);
    assert CallIsTrue(s, call);
    OneCallGoes(s, i, phase);
  }

  lemma CountKeeps(s: State, i: nat, fails: bool)
    requires Sound(s) && Enabled(s, LogIsCounted(i, fails))
    ensures Sound(Next(s, LogIsCounted(i, fails)))
  {
    hide HistoryIsPast, Was, SpentAt, EntryIsTrue, Warns, NotBefore;
    var call := s.calls[i];
    NowIsAMoment(s);
    assert CallIsTrue(s, call);
    OneCallGoes(s, i, if fails then Threw(CountFailed) else AfterCount(call, CountNow(s, call.key)));
  }

  lemma WriteKeeps(s: State, i: nat, fails: bool)
    requires Sound(s) && Enabled(s, CacheIsWritten(i, fails))
    ensures Sound(Next(s, CacheIsWritten(i, fails)))
  {
    hide HistoryIsPast, Was, SpentAt, Warns, NotBefore;
    var call := s.calls[i];
    assert CallIsTrue(s, call);
    CountIsBy(s, call.phase.counted.when);
    OneCallGoes(s, i, AfterStore(call, call.phase.counted));
    SameHistoryIsSound(s, Next(s, CacheIsWritten(i, fails)));
  }

  lemma CountIsBy(s: State, m: Moment)
    requires Was(s, m)
    ensures m.at <= s.now
  {
  }

  lemma CacheChanges(s: State, cache: map<Key, Entry>)
    requires Sound(s) && forall key <- cache :: EntryIsTrue(s, key, cache[key])
    ensures Sound(s.(cache := cache))
  {
    hide CallIsTrue, EntryIsTrue, HistoryIsPast;
    SameHistoryIsSound(s, s.(cache := cache));
  }

  lemma NextIsSound(s: State, e: Event)
    requires Sound(s)
    ensures Sound(Next(s, e))
  {
    hide CallIsTrue, AfterRead, AfterCount, AfterStore, SpentAt, Warns, IsCounted;
    if Enabled(s, e) {
      match e
      case Passes(_) => LaterIsSound(s, Next(s, e));
      case Spends(_) => LaterIsSound(s, Next(s, e));
      case WindowRolls(_) => LaterIsSound(s, Next(s, e));
      case Asks(key, cap, cached) => AskKeeps(s, key, cap, cached);
      case CacheIsRead(i, fails) => ReadKeeps(s, i, fails);
      case LogIsCounted(i, fails) => CountKeeps(s, i, fails);
      case CacheIsWritten(i, fails) => WriteKeeps(s, i, fails);
      case CacheLoses(key) => CacheChanges(s, s.cache - {key});
      case CacheIsSpoilt(key) => CacheChanges(s, s.cache[key := Entry(Unreadable, s.now)]);
    }
  }

  lemma {:induction false} RunIsSound(s: State, events: seq<Event>)
    requires Sound(s)
    ensures Sound(Run(s, events))
    decreases |events|
  {
    hide Sound, Next;
    if events != [] {
      NextIsSound(s, events[0]);
      RunIsSound(Next(s, events[0]), events[1..]);
    }
  }

  lemma EveryRunIsSound(events: seq<Event>)
    ensures Sound(Run(INITIAL, events))
  {
    hide Run;
    RunIsSound(INITIAL, events);
  }

  // ------------------------------------------------------------------
  // The promises of the guard, for every history.

  /**
   * An `assert` that returns rests on a total counted from the log, over the
   * window in force at the count, and below the cap. Counted for it, the count is
   * not before the call. From the cache, it was stored at most the time to live
   * ago and is below four fifths of both the cap it was written under and the cap
   * of the call.
   */
  lemma AnAssertThatReturnsRestsOnACount(events: seq<Event>, i: nat)
    requires var s := Run(INITIAL, events); i < |s.calls| && Asserted(s.calls[i].phase).Answered?
    ensures var s := Run(INITIAL, events);
            var call := s.calls[i];
            var check := call.phase.check;
            && 0.0 <= check.spent < check.cap == call.cap
            && match call.phase.source
               case FromCount(counted) =>
                 && Was(s, counted.when) && NotBefore(counted.when, call.asked)
                 && check.spent == SpentAt(s, call.key, counted.when)
               case FromCache(entry, read) =>
                 && entry.value.Written? && Was(s, entry.value.count.when)
                 && check.spent == SpentAt(s, call.key, entry.value.count.when)
                 && entry.value.count.when.at <= entry.storedAt <= read.at <= entry.storedAt + CACHE_TTL_MS
                 && Was(s, read) && NotBefore(read, call.asked)
                 && check.spent < 0.8 * entry.value.cap && check.spent < 0.8 * call.cap
  {
    hide Was, SpentAt, NotBefore, HistoryIsPast;
    EveryRunIsSound(events);
    assert CallIsTrue(Run(INITIAL, events), Run(INITIAL, events).calls[i]);
  }

  /**
   * A call that has its answer is refused by `assert` exactly if the total it found
   * has reached its cap, and then with that total and that cap; a total that has
   * was counted for this call.
   */
  lemma AnAssertRefusesExactlyWhen(events: seq<Event>, i: nat)
    requires var s := Run(INITIAL, events); i < |s.calls| && s.calls[i].phase.Answered?
    ensures var call := Run(INITIAL, events).calls[i];
            var spent := call.phase.check.spent;
            && (spent < call.cap ==> Asserted(call.phase) == call.phase)
            && (spent >= call.cap ==>
                  && Asserted(call.phase) == Threw(Exceeded(spent, call.cap))
                  && call.phase.source.FromCount? && spent == call.phase.source.counted.spent)
  {
    hide Was, SpentAt, NotBefore, HistoryIsPast;
    EveryRunIsSound(events);
    assert CallIsTrue(Run(INITIAL, events), Run(INITIAL, events).calls[i]);
  }

  /**
   * A total counted for a call is every row of its cap in the window in force at
   * the count: those that were in the log when the call came, and those that came
   * since. The window is the one in force when the call came, unless it has rolled
   * over in between. So what an `assert` found spent in the log is below the cap.
   */
  lemma AFreshCountMissesNothing(events: seq<Event>, i: nat)
    requires var s := Run(INITIAL, events);
             i < |s.calls| && s.calls[i].phase.Answered? && s.calls[i].phase.source.FromCount?
    ensures var s := Run(INITIAL, events);
            var call := s.calls[i];
            var count := call.phase.source.counted.when;
            && InHistory(s, call.asked) && InHistory(s, count) && NotBefore(count, call.asked)
            && var start := StartAt(s, call.key, count);
            && call.phase.check.spent == Sum(s.log[..call.asked.length], call.key, start, count.at + 1)
                                         + Sum(s.log[call.asked.length..count.length], call.key, start, count.at + 1)
            && RowsBefore(s.log[..count.length], count.at + 1)
            && Sum(s.log[..call.asked.length], call.key, start, count.at + 1) <= call.phase.check.spent
            && StartAt(s, call.key, call.asked) <= start <= count.at
            && (!RolledIn(s.rolls[call.asked.rolled..count.rolled], call.key) ==>
                  start == StartAt(s, call.key, call.asked))
  {
    EveryRunIsSound(events);
    var s := Run(INITIAL, events);
    var call := s.calls[i];
    assert CallIsTrue(s, call);
    CountCoversTheAsked(s, call.key, call.asked, call.phase.source.counted.when);
  }

  lemma CountCoversTheAsked(s: State, key: Key, asked: Moment, count: Moment)
    requires HistoryIsPast(s) && Was(s, asked) && Was(s, count) && NotBefore(count, asked)
    ensures var start := StartAt(s, key, count);
            && SpentAt(s, key, count) == Sum(s.log[..asked.length], key, start, count.at + 1)
                                         + Sum(s.log[asked.length..count.length], key, start, count.at + 1)
            && RowsBefore(s.log[..count.length], count.at + 1)
            && Sum(s.log[..asked.length], key, start, count.at + 1) <= SpentAt(s, key, count)
            && StartAt(s, key, asked) <= start <= count.at
            && (!RolledIn(s.rolls[asked.rolled..count.rolled], key) ==> start == StartAt(s, key, asked))
  {
    hide Sum, WindowStart;
    var start := StartAt(s, key, count);
    var before, since := s.log[..asked.length], s.log[asked.length..count.length];
    assert s.log[..count.length] == before + since;
    SumSplitsTheLog(before, since, key, start, count.at + 1);
    SumsAreNotNegative(since, key, start, count.at + 1);
    WindowsBetween(s, key, asked, count);
  }

  /** From one moment to a later one the window stays or begins anew, never before the moment. */
  lemma WindowsBetween(s: State, key: Key, m: Moment, later: Moment)
    requires Was(s, m) && Was(s, later) && NotBefore(later, m)
    ensures StartAt(s, key, m) <= StartAt(s, key, later) <= later.at
    ensures if RolledIn(s.rolls[m.rolled..later.rolled], key) then m.at <= StartAt(s, key, later)
            else StartAt(s, key, later) == StartAt(s, key, m)
  {
    var rolls := s.rolls[..later.rolled];
    assert rolls[..m.rolled] == s.rolls[..m.rolled] && rolls[m.rolled..] == s.rolls[m.rolled..later.rolled];
    WindowsOnlyMoveOn(rolls, m.rolled, key, m.at);
    StartIsBy(rolls, key, later.at);
  }

  /**
   * What a total from the cache is against the log at the read: the log holds what
   * the total holds, without the rows a rollover has left behind - none if the
   * window has not rolled over since the count - and with the rows that came since.
   */
  lemma ACachedTotalAgainstTheLog(events: seq<Event>, i: nat)
    requires var s := Run(INITIAL, events);
             i < |s.calls| && s.calls[i].phase.Answered? && s.calls[i].phase.source.FromCache?
    ensures var s := Run(INITIAL, events);
            var call := s.calls[i];
            var entry, read := call.phase.source.entry, call.phase.source.read;
            && entry.value.Written? && InHistory(s, read) && InHistory(s, entry.value.count.when)
            && NotBefore(read, entry.value.count.when)
            && var count := entry.value.count.when;
               var start, now := StartAt(s, call.key, count), StartAt(s, call.key, read);
            && SpentAt(s, call.key, read) == call.phase.check.spent
                                             - Sum(s.log[..count.length], call.key, start, now)
                                             + Sum(s.log[count.length..read.length], call.key, now, read.at + 1)
            && if RolledIn(s.rolls[count.rolled..read.rolled], call.key) then count.at <= now
               else Sum(s.log[..count.length], call.key, start, now) == 0.0 && now == start
  {
    hide HistoryIsPast, Sum, WindowStart;
    EveryRunIsSound(events);
    var s := Run(INITIAL, events);
    var call := s.calls[i];
    assert CallIsTrue(s, call);
    TotalsAgainstEachOther(s, call.key, call.phase.source.entry.value.count.when, call.phase.source.read);
  }

  lemma TotalsAgainstEachOther(s: State, key: Key, count: Moment, read: Moment)
    requires Was(s, count) && Was(s, read) && NotBefore(read, count)
    ensures var start, now := StartAt(s, key, count), StartAt(s, key, read);
            && SpentAt(s, key, read) == SpentAt(s, key, count) - Sum(s.log[..count.length], key, start, now)
                                        + Sum(s.log[count.length..read.length], key, now, read.at + 1)
            && if RolledIn(s.rolls[count.rolled..read.rolled], key) then count.at <= now
               else Sum(s.log[..count.length], key, start, now) == 0.0 && now == start
  {
    hide Sum, WindowStart;
    var start, now := StartAt(s, key, count), StartAt(s, key, read);
    var counted, since := s.log[..count.length], s.log[count.length..read.length];
    assert s.log[..read.length] == counted + since;
    WindowsBetween(s, key, count, read);
    SumSplitsTheLog(counted, since, key, now, read.at + 1);
    SumEndsWithTheRows(counted, key, now, count.at + 1, read.at + 1);
    SumSplitsTheTime(counted, key, start, now, count.at + 1);
    NothingInNoTime(counted, key, start);
  }

  lemma {:induction false} NothingInNoTime(log: seq<Row>, key: Key, at: int)
    ensures Sum(log, key, at, at) == 0.0
  {
    if log != [] {
      NothingInNoTime(log[..|log| - 1], key, at);
    }
  }

  /** A call that is to count answers from a count of its own, or throws. */
  predicate Counts(phase: Phase) {
    phase.Counting? || phase.Storing? || phase.Threw? || (phase.Answered? && phase.source.FromCount?)
  }

  /** A total of the cache a call may answer with: readable, in its time, and below the warning share of both caps. */
  predicate IsUsable(s: State, call: Call) {
    && call.key in s.cache && s.now <= s.cache[call.key].storedAt + CACHE_TTL_MS
    && s.cache[call.key].value.Written? && !s.cache[call.key].value.warn
    && !Warns(s.cache[call.key].value.count.spent, call.cap) && call.cap > 0.0
  }

  /**
   * A call answers from the cache exactly when the cache does not fail and holds a
   * usable total; in every other case it answers from a count of its own or
   * throws, however the run goes on.
   */
  lemma AFailingCacheLeadsToACount(before: seq<Event>, i: nat, fails: bool, events: seq<Event>)
    requires Enabled(Run(INITIAL, before), CacheIsRead(i, fails))
    ensures var s := Run(INITIAL, before);
            var read := Next(s, CacheIsRead(i, fails));
            var end := Run(read, events);
            if !fails && IsUsable(s, s.calls[i])
            then read.calls[i].phase.Answered? && read.calls[i].phase.source.FromCache?
            else i < |end.calls| && Counts(end.calls[i].phase)
  {
    hide Run, NotBefore, HistoryIsPast;
    EveryRunIsSound(before);
    var s := Run(INITIAL, before);
    if !fails && IsUsable(s, s.calls[i]) {
      SpentIsNotNegative(s, s.calls[i].key, s.cache[s.calls[i].key].value.count);
    } else {
      CountingStays(Next(s, CacheIsRead(i, fails)), i, events);
    }
  }

  lemma SpentIsNotNegative(s: State, key: Key, counted: Count)
    requires HistoryIsPast(s) && IsCounted(s, key, counted)
    ensures counted.spent >= 0.0
  {
    SumsAreNotNegative(s.log[..counted.when.length], key, StartAt(s, key, counted.when), counted.when.at + 1);
  }

  lemma {:induction false} CountingStays(s: State, i: nat, events: seq<Event>)
    requires i < |s.calls| && Counts(s.calls[i].phase)
    ensures var end := Run(s, events); i < |end.calls| && Counts(end.calls[i].phase)
    decreases |events|
  {
    hide Counts, Next;
    if events != [] {
      CountingStaysOnce(s, i, events[0]);
      CountingStays(Next(s, events[0]), i, events[1..]);
    }
  }

  lemma CountingStaysOnce(s: State, i: nat, e: Event)
    requires i < |s.calls| && Counts(s.calls[i].phase)
    ensures i < |Next(s, e).calls| && Counts(Next(s, e).calls[i].phase)
  {
    hide SpentAt, AfterRead, Warns, CheckOf;
  }

  // ------------------------------------------------------------------
  // Several caps in one statement.

  datatype Checks = Checked(checks: seq<Option<Check>>) | NoTotal(key: Key) | Refused(key: Key)

  /** The caps as configured. */
  datatype Limits = Limits(youtubeUnitsDailySoftCap: real, geminiDailyBudgetUsd: real, ttsMonthlyBudgetUsd: real)

  function CapFor(limits: Limits, key: Key): real {
    match key
    case YoutubeUnitsDay => limits.youtubeUnitsDailySoftCap
    case GeminiUsdDay => limits.geminiDailyBudgetUsd
    case TtsUsdMonth => limits.ttsMonthlyBudgetUsd
  }

  const SPEECH := {Elevenlabs, OpenaiTts, GoogleTts, Cartesia}

  /** The providers of speech share one cap, two others have their own, and the rest have none. */
  lemma EachProviderHasItsCap(limits: Limits, provider: Provider)
    ensures ScopeFor(provider).None? <==> provider == YoutubeAnalytics || provider == System
    ensures ScopeFor(provider).Some? ==>
              var key := ScopeFor(provider).value;
              && CapFor(limits, key) == (if provider == YoutubeData then limits.youtubeUnitsDailySoftCap
                                         else if provider == Gemini then limits.geminiDailyBudgetUsd
                                         else limits.ttsMonthlyBudgetUsd)
              && ProvidersOf(key) == if provider in SPEECH then SPEECH else {provider}
  {
  }

  /** The caps to count, in the order asked. */
  function Counted(providers: seq<Provider>): seq<Key> {
    if providers == [] then []
    else
      Counted(providers[..|providers| - 1])
      + match ScopeFor(providers[|providers| - 1]) case None => [] case Some(key) => [key]
  }

  /** The answer for the `i`th provider: no check without a cap, and else of the total in its own place. */
  ghost predicate IsTheCheckOf(providers: seq<Provider>, totals: seq<real>, limits: Limits, i: nat,
                               check: Option<Check>)
    requires i < |providers|
  {
    match ScopeFor(providers[i])
    case None => check == None
    case Some(key) =>
      var place := |Counted(providers[..i])|;
      place < |totals| && check.Some? && check == CheckOf(key, totals[place], CapFor(limits, key))
  }

  lemma {:induction false} CountedGrows(providers: seq<Provider>, i: nat)
    requires i < |providers|
    ensures Counted(providers[..i + 1])
            == Counted(providers[..i]) + match ScopeFor(providers[i]) case None => [] case Some(key) => [key]
    ensures |Counted(providers[..i + 1])| <= |Counted(providers)|
    decreases |providers| - i
  {
    assert providers[..i + 1][..i] == providers[..i];
    if i + 1 < |providers| {
      CountedGrows(providers, i + 1);
    } else {
      assert providers[..i + 1] == providers;
    }
  }

  /** Where the caps of several providers stand, in the order asked, from the totals of one statement. */
  method CountBudgetChecks(providers: seq<Provider>, totals: seq<real>, limits: Limits) returns (result: Checks)
    ensures result.Checked? ==> |result.checks| == |providers|
    ensures result.Checked? ==>
              forall i | 0 <= i < |providers| :: IsTheCheckOf(providers, totals, limits, i, result.checks[i])
    ensures |totals| >= |Counted(providers)| ==> !result.NoTotal?
    ensures result.Checked? ==> |totals| >= |Counted(providers)|
    ensures (forall key: Key :: CapFor(limits, key) > 0.0) && (forall k | 0 <= k < |totals| :: totals[k] >= 0.0) ==>
              !result.Refused?
  {
    hide CheckOf;
    var checks: seq<Option<Check>> := [];
    var next := 0;
    for i := 0 to |providers|
      invariant |checks| == i && next == |Counted(providers[..i])| <= |totals|
      invariant forall k | 0 <= k < i :: IsTheCheckOf(providers, totals, limits, k, checks[k])
    {
      CountedGrows(providers, i);
      match ScopeFor(providers[i]) {
        case None =>
          checks := checks + [None];
        case Some(key) =>
          if next >= |totals| {
            return NoTotal(key);
          }
          var check := CheckOf(key, totals[next], CapFor(limits, key));
          CheckOfSucceeds(key, totals[next], CapFor(limits, key));
          if check.None? {
            return Refused(key);
          }
          checks := checks + [check];
          next := next + 1;
      }
    }
    assert providers[..|providers|] == providers;
    result := Checked(checks);
  }

  lemma CheckOfSucceeds(key: Key, spent: real, cap: real)
    ensures CheckOf(key, spent, cap).Some? <==> cap > 0.0 && spent >= 0.0
  {
  }

  // ------------------------------------------------------------------
  // One guard at work.

  /** The total a cache holds of a cap if a call under `cap` may answer with it. */
  function UsableTotal(cache: map<Key, Entry>, key: Key, now: nat, cap: real): Option<real> {
    if key in cache && now <= cache[key].storedAt + 60000 && cache[key].value.Written? && !cache[key].value.warn
       && cache[key].value.count.spent * 5.0 < cap * 4.0
    then Some(cache[key].value.count.spent)
    else None
  }

  /** The call may go ahead: so much is spent of the cap. */
  predicate GoesAhead(phase: Phase, spent: real, cap: real) {
    phase.Answered? && phase.check.spent == spent && phase.check.cap == cap && !phase.check.exceeded
  }

  /**
   * What `assert` makes of the total of the window and of a usable one in the
   * cache: with a usable one the call goes ahead, and the log is not asked; else it
   * goes ahead exactly if the log was counted and its total is below the cap. A cap
   * that is not positive and a negative total are refused as such.
   */
  predicate IsTheVerdict(phase: Phase, cap: real, total: real, found: Option<real>, countFails: bool) {
    if cap <= 0.0 then phase.Threw? && !phase.failure.Exceeded?
    else match found
      case Some(spent) => if spent < 0.0 then phase == Threw(CapRefused) else GoesAhead(phase, spent, cap)
      case None =>
        if countFails then phase == Threw(CountFailed)
        else if total < 0.0 then phase == Threw(CapRefused)
        else if total < cap then GoesAhead(phase, total, cap)
        else phase == Threw(Exceeded(total, cap))
  }

  /**
   * The cache takes the total of a call that counted, as of now and with whether it
   * warns under the cap of the call, and it takes nothing from any other.
   */
  predicate CacheTakes(cache: map<Key, Entry>, was: map<Key, Entry>, key: Key, cap: real, now: nat, total: real,
                       takes: bool)
  {
    if !takes then cache == was
    else
      && cache.Keys == was.Keys + {key} && (forall other <- was :: other != key ==> cache[other] == was[other])
      && cache[key].storedAt == now && cache[key].value.Written? && cache[key].value.cap == cap
      && cache[key].value.count.spent == total && (cache[key].value.warn <==> total * 5.0 >= cap * 4.0)
  }

  /** A read of the cache answers with a usable total, and else leads to a count. */
  lemma AReadComesTo(call: Call, cache: map<Key, Entry>, now: nat, read: Moment)
    ensures var phase := AfterRead(call, Found(cache, call.key, now), read);
            if call.cap <= 0.0 then phase == Counting || phase == Threw(CapRefused)
            else match UsableTotal(cache, call.key, now, call.cap)
              case None => phase == Counting
              case Some(spent) =>
                if spent < 0.0 then phase == Threw(CapRefused)
                else GoesAhead(phase, spent, call.cap) && !phase.check.exceeded
  {
  }

  /** A count, and the write of its total, come to the verdict on it. */
  lemma ACountComesTo(s: State, countFails: bool, writeFails: bool)
    requires |s.calls| == 1
    requires (s.calls[0].phase.Counting? && s.calls[0].cached) || (s.calls[0].phase.Asking? && !s.calls[0].cached)
    ensures var end := Next(Next(s, LogIsCounted(0, countFails)), CacheIsWritten(0, writeFails));
            var call := s.calls[0];
            var total := SpentAt(s, call.key, Here(s));
            && |end.calls| == 1
            && IsTheVerdict(Asserted(end.calls[0].phase), call.cap, total, None, countFails)
            && CacheTakes(end.cache, s.cache, call.key, call.cap, s.now, total,
                          call.cached && call.cap > 0.0 && !countFails && !writeFails && total >= 0.0)
  {
    hide SpentAt, CheckOf;
    var key, cap := s.calls[0].key, s.calls[0].cap;
    ACheckTells(key, SpentAt(s, key, Here(s)), cap);
    var counted := Next(s, LogIsCounted(0, countFails));
    assert |counted.calls| == 1;
    if counted.calls[0].phase.Storing? {
      assert counted.calls[0].phase.counted.spent == SpentAt(s, key, Here(s));
      assert Enabled(counted, CacheIsWritten(0, writeFails));
    } else {
      assert Next(counted, CacheIsWritten(0, writeFails)) == counted;
    }
  }

  lemma ACheckTells(key: Key, spent: real, cap: real)
    ensures var check := CheckOf(key, spent, cap);
            if cap <= 0.0 || spent < 0.0 then check.None?
            else && check.Some? && check.value.spent == spent && check.value.cap == cap
                 && (check.value.exceeded <==> spent >= cap) && (check.value.warn <==> spent * 5.0 >= cap * 4.0)
  {
  }

  /** The statements of one call come to that verdict. */
  lemma OneCallComesToItsVerdict(s: State, key: Key, cap: real, cached: bool, readFails: bool, countFails: bool,
                                 writeFails: bool)
    requires s.calls == []
    ensures var end := Run(s, [Asks(key, cap, cached), CacheIsRead(0, readFails), LogIsCounted(0, countFails),
                               CacheIsWritten(0, writeFails)]);
            var found := if cached && !readFails then UsableTotal(s.cache, key, s.now, cap) else None;
            && |end.calls| == 1
            && IsTheVerdict(Asserted(end.calls[0].phase), cap, SpentAt(s, key, Here(s)), found, countFails)
            && CacheTakes(end.cache, s.cache, key, cap, s.now, SpentAt(s, key, Here(s)),
                          cached && cap > 0.0 && found.None? && !countFails && !writeFails
                          && SpentAt(s, key, Here(s)) >= 0.0)
  {
    hide Run, SpentAt, UsableTotal, AfterRead, AfterCount, AfterStore, CheckOf, Found, Warns;
    StatementsUnfold(s, Asks(key, cap, cached), CacheIsRead(0, readFails), LogIsCounted(0, countFails),
                     CacheIsWritten(0, writeFails));
    var asked := Next(s, Asks(key, cap, cached));
    var read := Next(asked, CacheIsRead(0, readFails));
    SameHistorySpends(s, read, key);
    AReadComesTo(asked.calls[0], asked.cache, asked.now, Here(asked));
    if !cached || read.calls[0].phase.Counting? {
      ACountComesTo(read, countFails, writeFails);
    } else {
      assert Next(Next(read, LogIsCounted(0, countFails)), CacheIsWritten(0, writeFails)) == read;
    }
  }

  /** What `assert` is asked for: a provider without a cap has no fuse to ask. */
  datatype Verdict = NoCap | Verdict(phase: Phase)

  /** A guard with the log it counts and the cache it shares, for the time of one call. */
  class Guard {
    const limits: Limits
    const hasCache: bool
    var now: nat
    var log: seq<Row>
    var rolls: seq<Roll>
    var cache: map<Key, Entry>

    ghost function Model(): State
      reads this
    {
      State(now, log, rolls, cache, [])
    }

    /** The statements of one call that nothing comes between; one that is not due changes nothing. */
    ghost function Statements(key: Key, cap: real, readFails: bool, countFails: bool, writeFails: bool): seq<Event> {
      [Asks(key, cap, hasCache), CacheIsRead(0, readFails), LogIsCounted(0, countFails), CacheIsWritten(0, writeFails)]
    }

    method CachedSpend(call: Call, fails: bool) returns (phase: Phase)
      ensures phase == if fails then Counting else AfterRead(call, Found(cache, call.key, now), Here(Model()))
    {
      if fails {
        return Counting;
      }
      var entry := Found(cache, call.key, now);
      if entry.None? || entry.value.value.Unreadable? || entry.value.value.warn {
        return Counting;
      }
      var check := CheckOf(call.key, entry.value.value.count.spent, call.cap);
      if check.None? {
        return Threw(CapRefused);
      }
      phase := if check.value.warn then Counting
        else Answered(check.value, FromCache(entry.value, Moment(now, |log|, |rolls|)));
    }

    /** The total of a cap's rows from the start of its window up to now, both included. */
    method SumUsage(key: Key) returns (spent: real)
      ensures spent == SpentAt(Model(), key, Here(Model()))
    {
      var start := WindowStart(rolls, key);
      assert rolls[..|rolls|] == rolls;
      spent := 0.0;
      for n := 0 to |log|
        invariant spent == Sum(log[..n], key, start, now + 1)
      {
        assert log[..n + 1][..n] == log[..n];
        if log[n].provider in ProvidersOf(key) && start <= log[n].at <= now {
          spent := spent + log[n].amount;
        }
      }
    }

    method CountSpend(call: Call, countFails: bool, writeFails: bool) returns (phase: Phase)
      modifies this`cache
      ensures var counted := CountNow(old(Model()), call.key);
              var check := CheckOf(call.key, counted.spent, call.cap);
              && phase == (if countFails then Threw(CountFailed)
                           else if check.None? then Threw(CapRefused) else Answered(check.value, FromCount(counted)))
              && cache == if countFails || check.None? || !call.cached || writeFails then old(cache)
                          else old(cache)[call.key := Entry(Written(counted, call.cap, check.value.warn), now)]
    {
      if countFails {
        return Threw(CountFailed);
      }
      var spent := SumUsage(call.key);
      var check := CheckOf(call.key, spent, call.cap);
      if check.None? {
        return Threw(CapRefused);
      }
      var counted := Count(Moment(now, |log|, |rolls|), spent);
      if call.cached && !writeFails {
        cache := cache[call.key := Entry(Written(counted, call.cap, check.value.warn), now)];
      }
      phase := Answered(check.value, FromCount(counted));
    }

    method CountOrCached(key: Key, cap: real, readFails: bool, countFails: bool, writeFails: bool)
      returns (phase: Phase)
      modifies this`cache
      ensures var end := Run(old(Model()), Statements(key, cap, readFails, countFails, writeFails));
              |end.calls| == 1 && phase == end.calls[0].phase && cache == end.cache
    {
      hide CheckOf, SpentAt, Found, AfterRead;
      var call := Call(key, cap, hasCache, Moment(now, |log|, |rolls|), Asking);
      StatementsUnfold(Model(), Asks(key, cap, hasCache), CacheIsRead(0, readFails),
                       LogIsCounted(0, countFails), CacheIsWritten(0, writeFails));
      ghost var asked := Next(Model(), Asks(key, cap, hasCache));
      SameHistorySpends(Model(), asked, key);
      SameHistorySpends(Model(), Next(asked, CacheIsRead(0, readFails)), key);
      if hasCache {
        phase := CachedSpend(call, readFails);
        ReadLeads(call, Found(cache, key, now), Here(Model()));
        if !phase.Counting? {
          return;
        }
      }
      WarnIs(key, SpentAt(Model(), key, Here(Model())), cap);
      phase := CountSpend(call, countFails, writeFails);
    }

    /** Throws once the cap is reached; a provider without a cap is refused. */
    method Assert(provider: Provider, readFails: bool, countFails: bool, writeFails: bool) returns (verdict: Verdict)
      modifies this`cache
      ensures verdict.NoCap? <==> ScopeFor(provider).None?
      ensures ScopeFor(provider).Some? ==>
                var key := ScopeFor(provider).value;
                var end := Run(old(Model()), Statements(key, CapFor(limits, key), readFails, countFails, writeFails));
                |end.calls| == 1 && verdict.phase == Asserted(end.calls[0].phase) && cache == end.cache
      ensures ScopeFor(provider).Some? ==>
                var key := ScopeFor(provider).value;
                var cap := CapFor(limits, key);
                var total := Sum(log, key, WindowStart(rolls, key), now + 1);
                var found := if hasCache && !readFails then UsableTotal(old(cache), key, now, cap) else None;
                && IsTheVerdict(verdict.phase, cap, total, found, countFails)
                && CacheTakes(cache, old(cache), key, cap, now, total,
                              hasCache && cap > 0.0 && found.None? && !countFails && !writeFails && total >= 0.0)
    {
      hide Run, IsTheVerdict, UsableTotal, CacheTakes;
      match ScopeFor(provider) {
        case None =>
          return NoCap;
        case Some(key) =>
          ghost var was := Model();
          OneCallComesToItsVerdict(was, key, CapFor(limits, key), hasCache, readFails, countFails, writeFails);
          assert rolls[..|rolls|] == rolls && log[..|log|] == log;
          var phase := CountOrCached(key, CapFor(limits, key), readFails, countFails, writeFails);
          if phase.Answered? && phase.check.exceeded {
            return Verdict(Threw(Exceeded(phase.check.spent, phase.check.cap)));
          }
          verdict := Verdict(phase);
      }
    }
  }

  lemma StatementsUnfold(s: State, a: Event, b: Event, c: Event, d: Event)
    ensures Run(s, [a, b, c, d]) == Next(Next(Next(Next(s, a), b), c), d)
  {
    hide Next;
    var one, two, three, four := [d], [c, d], [b, c, d], [a, b, c, d];
    assert four[1..] == three && three[1..] == two && two[1..] == one && one[1..] == [];
    assert Run(Next(Next(Next(s, a), b), c), one) == Next(Next(Next(Next(s, a), b), c), d);
    assert Run(Next(Next(s, a), b), two) == Run(Next(Next(Next(s, a), b), c), one);
  }

  lemma SameHistorySpends(s: State, s': State, key: Key)
    requires s'.now == s.now && s'.log == s.log && s'.rolls == s.rolls
    ensures CountNow(s', key) == CountNow(s, key)
  {
  }

  lemma ReadLeads(call: Call, entry: Option<Entry>, read: Moment)
    ensures var phase := AfterRead(call, entry, read); phase.Counting? || phase.Answered? || phase.Threw?
  {
  }

  lemma WarnIs(key: Key, spent: real, cap: real)
    ensures CheckOf(key, spent, cap).Some? ==> CheckOf(key, spent, cap).value.warn == Warns(spent, cap)
  {
  }
}
