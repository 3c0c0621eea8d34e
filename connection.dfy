/**
 * Connecting to the store at startup: the bounded ping loop of
 * `initialize_database` and the database-name parse of `get_db`.
 * The ping's outcome on each attempt is an input; sleeps are counted, not performed.
 */
module Connection {
  import opened Wrappers

  /** What one `admin.command('ping')` does: succeed, fail transiently
      (ConnectionFailure, ServerSelectionTimeoutError), or raise anything else. */
  datatype Probe = PingOk | Transient | OtherError

  /** How the loop ends: connected (break), RuntimeError after the last transient
      failure, or the other exception escaping at once. */
  datatype ConnectOutcome = Connected | Exhausted | Escaped

  const MaxRetries: nat := 3

  /** The seconds slept between two attempts. */
  const RetryDelay: nat := 1

  /**
   * The retry contract: every attempt but the last failed transiently, one sleep
   * separates two attempts, and the last attempt decides the outcome; a transient
   * failure ends the loop only on the last allowed attempt.
   */
  predicate RetryOutcome(probe: nat -> Probe, o: ConnectOutcome, pings: nat, sleeps: nat) {
    && 1 <= pings <= MaxRetries
    && sleeps == pings - 1
    && (forall a :: 0 <= a < pings - 1 ==> probe(a) == Transient)
    && (o == Connected <==> probe(pings - 1) == PingOk)
    && (o == Escaped <==> probe(pings - 1) == OtherError)
    && (o == Exhausted <==> probe(pings - 1) == Transient && pings == MaxRetries)
  }

  /** The ping loop; `slept` is the total time `time.sleep(retry_delay)` waits, in seconds. */
  method Connect(probe: nat -> Probe) returns (o: ConnectOutcome, pings: nat, sleeps: nat, slept: nat)
    ensures RetryOutcome(probe, o, pings, sleeps)
    ensures slept == sleeps * RetryDelay
  {
    pings, sleeps, slept := 0, 0, 0;
    o := Exhausted;
    var attempt: nat := 0;
    while attempt < MaxRetries
      invariant attempt < MaxRetries
      invariant pings == attempt && sleeps == attempt && slept == sleeps * RetryDelay
      invariant forall a :: 0 <= a < attempt ==> probe(a) == Transient
      decreases MaxRetries - attempt
    {
      pings := pings + 1;
      var p := probe(attempt);
      if p == PingOk {
        o := Connected;
        break;
      } else if p == Transient {
        if attempt == MaxRetries - 1 {
          o := Exhausted;
          break;
        }
        sleeps := sleeps + 1;
        slept := slept + RetryDelay;
      } else {
        o := Escaped;
        break;
      }
      attempt := attempt + 1;
    }
  }

  /** The outcome is a function of the probe: the retry contract admits one result. */
  lemma RetryOutcomeUnique(probe: nat -> Probe, o1: ConnectOutcome, p1: nat, s1: nat,
                           o2: ConnectOutcome, p2: nat, s2: nat)
    requires RetryOutcome(probe, o1, p1, s1) && RetryOutcome(probe, o2, p2, s2)
    ensures o1 == o2 && p1 == p2 && s1 == s2
  {
  }

  /** Against a probe that always fails transiently: three pings, two sleeps, RuntimeError. */
  lemma AllTransientExhausts(probe: nat -> Probe, o: ConnectOutcome, pings: nat, sleeps: nat)
    requires forall a :: probe(a) == Transient
    requires RetryOutcome(probe, o, pings, sleeps)
    ensures o == Exhausted && pings == MaxRetries && sleeps == MaxRetries - 1
  {
    assert probe(pings - 1) == Transient;
  }

  /** A success on the first attempt: one ping, no sleep. */
  lemma FirstPingConnects(probe: nat -> Probe, o: ConnectOutcome, pings: nat, sleeps: nat)
    requires probe(0) == PingOk
    requires RetryOutcome(probe, o, pings, sleeps)
    ensures o == Connected && pings == 1 && sleeps == 0
  {
  }

  // ---- get_db: the database name parsed from the connection URI ----

  const DefaultUri: string := "mongodb://localhost:27017/minirecords"
  const DefaultDbName: string := "minirecords"

  /**
   * `mongo_uri or os.getenv('MONGO_URI', default)`: a missing or empty argument
   * falls back to the environment variable, and an unset variable to the default.
   * An environment variable set to "" is used as it is.
   */
  function EffectiveUri(arg: Option<string>, env: Option<string>): (u: string)
    ensures arg.Some? && arg.value != "" ==> u == arg.value
    ensures (arg.None? || arg.value == "") && env.Some? ==> u == env.value
    ensures (arg.None? || arg.value == "") && env.None? ==> u == DefaultUri
  {
    if arg.Some? && arg.value != "" then arg.value else env.GetOr(DefaultUri)
  }

  /** `s.split('/')[-1]`: the text after the last slash, or all of `s` when it has none. */
  function AfterLastSlash(s: string): (t: string)
    ensures '/' !in t
    ensures |t| <= |s| && t == s[|s| - |t|..]
    ensures |t| < |s| ==> s[|s| - |t| - 1] == '/'
  {
    if s == [] then []
    else if s[|s| - 1] == '/' then []
    else
      var init := s[..|s| - 1];
      var t := AfterLastSlash(init);
      assert t == init[|init| - |t|..];
      assert t + [s[|s| - 1]] == s[|s| - |t| - 1..];
      t + [s[|s| - 1]]
  }

  /** `s.split('?')[0]`: the text before the first question mark, or all of `s`. */
  function BeforeFirstQuery(s: string): (t: string)
    ensures '?' !in t
    ensures |t| <= |s| && t == s[..|t|]
    ensures |t| < |s| ==> s[|t|] == '?'
  {
    if s == [] then []
    else if s[0] == '?' then []
    else [s[0]] + BeforeFirstQuery(s[1..])
  }

  /** `mongo_uri.split('/')[-1].split('?')[0] or 'minirecords'`. */
  function DbName(uri: string): (n: string)
    ensures n != [] && '/' !in n && '?' !in n
    ensures BeforeFirstQuery(AfterLastSlash(uri)) != [] ==> n == BeforeFirstQuery(AfterLastSlash(uri))
    ensures BeforeFirstQuery(AfterLastSlash(uri)) == [] ==> n == DefaultDbName
  {
    var t := BeforeFirstQuery(AfterLastSlash(uri));
    if t != [] then t else DefaultNameClean(); DefaultDbName
  }

  lemma DefaultNameClean()
    ensures DefaultDbName != [] && '/' !in DefaultDbName && '?' !in DefaultDbName
  {
    assert forall i :: 0 <= i < |DefaultDbName| ==> 'a' <= DefaultDbName[i] <= 'z';
  }

  lemma {:induction false} AfterLastSlashJoin(a: string, b: string)
    requires '/' !in b
    ensures AfterLastSlash(a + ['/'] + b) == b
  {
    if b == [] {
    } else {
      var s := a + ['/'] + b;
      assert s[..|s| - 1] == a + ['/'] + b[..|b| - 1];
      AfterLastSlashJoin(a, b[..|b| - 1]);
      assert b == b[..|b| - 1] + [b[|b| - 1]];
    }
  }

  lemma {:induction false} BeforeFirstQueryJoin(n: string, q: string)
    requires '?' !in n
    ensures BeforeFirstQuery(n + ['?'] + q) == n
  {
    if n == [] {
    } else {
      assert (n + ['?'] + q)[1..] == n[1..] + ['?'] + q;
      BeforeFirstQueryJoin(n[1..], q);
    }
  }

  lemma BeforeFirstQueryWhole(n: string)
    requires '?' !in n
    ensures BeforeFirstQuery(n) == n
  {
  }

  /** The name written after the last slash, up to the query string, is the one used. */
  lemma DbNameOfUri(prefix: string, name: string, query: string)
    requires name != [] && '/' !in name && '?' !in name && '/' !in query
    ensures DbName(prefix + ['/'] + name) == name
    ensures DbName(prefix + ['/'] + name + ['?'] + query) == name
  {
    AfterLastSlashJoin(prefix, name);
    BeforeFirstQueryWhole(name);
    DbNameWithQuery(prefix, name, query);
  }

  lemma DbNameWithQuery(prefix: string, name: string, query: string)
    requires name != [] && '/' !in name && '?' !in name && '/' !in query
    ensures DbName(prefix + ['/'] + name + ['?'] + query) == name
  {
    var rest := name + ['?'] + query;
    assert '/' !in rest by {
      assert forall i :: 0 <= i < |rest| ==> rest[i] in name || rest[i] == '?' || rest[i] in query;
    }
    assert prefix + ['/'] + name + ['?'] + query == prefix + ['/'] + rest;
    AfterLastSlashJoin(prefix, rest);
    BeforeFirstQueryJoin(name, query);
  }

  /** A URI ending in a slash names no database, so the default name is used. */
  lemma DbNameDefaultsOnTrailingSlash(prefix: string)
    ensures DbName(prefix + ['/']) == DefaultDbName
  {
    AfterLastSlashJoin(prefix, []);
    assert prefix + ['/'] + [] == prefix + ['/'];
  }
}
