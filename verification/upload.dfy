/** The retry control flow of `UploadSFTP` in static/static.go. Reading and parsing the
    private key and each transport attempt (`uploadOnce`) are oracles; the inter-attempt
    sleeps are counted instead of performed. */
module Upload {
  import opened Common

  const MaxRetries: nat := 3
  const RetryDelaySeconds: nat := 2

  /** What the outside world does during one call: the key file read, the key parse, and the
      outcome of attempt number `n` (1-based) of `uploadOnce`. */
  datatype SftpEnv = SftpEnv(readKey: Outcome, parseKey: Outcome, uploadOnce: nat -> Result<string>)

  datatype UploadReport = UploadReport(result: Result<string>, attempts: nat, sleeps: nat)

  predicate KeyUsable(env: SftpEnv) {
    env.readKey.Pass? && env.parseKey.Pass?
  }

  /** The attempt loop from attempt `n` on, once `n - 1` attempts have failed. */
  function AttemptsFrom(env: SftpEnv, n: nat): (r: UploadReport)
    requires 1 <= n <= MaxRetries
    ensures n <= r.attempts <= MaxRetries
    ensures r.sleeps == r.attempts - n
    ensures r.result.Ok? <==> exists i :: n <= i <= MaxRetries && env.uploadOnce(i).Ok?
    ensures r.result.Ok? ==> r.result == env.uploadOnce(r.attempts)
    ensures forall i :: n <= i < r.attempts ==> env.uploadOnce(i).Err?
    ensures r.result.Err? ==> r.attempts == MaxRetries && r.result == env.uploadOnce(MaxRetries)
    decreases MaxRetries - n
  {
    match env.uploadOnce(n)
    case Ok(msg) => UploadReport(Ok(msg), n, 0)
    case Err(e) =>
      if n < MaxRetries then
        var rest := AttemptsFrom(env, n + 1);
        UploadReport(rest.result, rest.attempts, rest.sleeps + 1)
      else UploadReport(Err(e), n, 0)
  }

  /** `UploadSFTP` as a reference function: key errors return at once and are never
      retried; otherwise between one and three attempts run, the first success is
      returned, a sleep separates consecutive attempts, and when every attempt fails the
      last attempt's error is returned. */
  function UploadOutcome(env: SftpEnv): (r: UploadReport)
    ensures env.readKey.Fail? ==>
      r == UploadReport(Err("unable to read private key: " + env.readKey.error), 0, 0)
    ensures env.readKey.Pass? && env.parseKey.Fail? ==>
      r == UploadReport(Err("unable to parse private key: " + env.parseKey.error), 0, 0)
    ensures KeyUsable(env) ==> 1 <= r.attempts <= MaxRetries && r.sleeps == r.attempts - 1
    ensures KeyUsable(env) ==> (r.result.Ok? <==> exists i :: 1 <= i <= MaxRetries && env.uploadOnce(i).Ok?)
    ensures KeyUsable(env) && r.result.Ok? ==>
      r.result == env.uploadOnce(r.attempts) && forall i :: 1 <= i < r.attempts ==> env.uploadOnce(i).Err?
    ensures KeyUsable(env) && r.result.Err? ==>
      r.attempts == MaxRetries && r.sleeps == MaxRetries - 1 && r.result == env.uploadOnce(MaxRetries)
  {
    if env.readKey.Fail? then UploadReport(Err("unable to read private key: " + env.readKey.error), 0, 0)
    else if env.parseKey.Fail? then UploadReport(Err("unable to parse private key: " + env.parseKey.error), 0, 0)
    else AttemptsFrom(env, 1)
  }

  /** `UploadSFTP` as the source writes it: a counted loop with a sleep after every failed
      attempt but the last. It computes exactly the reference outcome. */
  method UploadSFTP(env: SftpEnv) returns (result: Result<string>, attempts: nat, sleeps: nat)
    ensures UploadReport(result, attempts, sleeps) == UploadOutcome(env)
  {
    attempts := 0;
    sleeps := 0;
    if env.readKey.Fail? {
      return Err("unable to read private key: " + env.readKey.error), 0, 0;
    }
    if env.parseKey.Fail? {
      return Err("unable to parse private key: " + env.parseKey.error), 0, 0;
    }
    var lastErr := "";
    var attempt: nat := 1;
    while attempt <= MaxRetries
      invariant 1 <= attempt <= MaxRetries + 1
      invariant attempts == attempt - 1
      invariant sleeps == if attempt <= MaxRetries then attempt - 1 else MaxRetries - 1
      invariant forall i :: 1 <= i < attempt ==> env.uploadOnce(i).Err?
      invariant attempt > 1 ==> lastErr == env.uploadOnce(attempt - 1).error
      invariant attempt <= MaxRetries ==>
        UploadOutcome(env) == (var rest := AttemptsFrom(env, attempt);
                               UploadReport(rest.result, rest.attempts, rest.sleeps + attempt - 1))
      decreases MaxRetries + 1 - attempt
    {
      attempts := attempts + 1;
      var once := env.uploadOnce(attempt);
      if once.Ok? {
        return once, attempts, sleeps;
      }
      lastErr := once.error;
      if attempt < MaxRetries {
        sleeps := sleeps + 1;
      }
      attempt := attempt + 1;
    }
    result := Err(lastErr);
  }

  /** A transport that always fails costs three attempts and exactly two sleeps. */
  lemma AllFailSleepsTwice(env: SftpEnv)
    requires KeyUsable(env)
    requires forall i :: 1 <= i <= MaxRetries ==> env.uploadOnce(i).Err?
    ensures UploadOutcome(env).attempts == 3
    ensures UploadOutcome(env).sleeps == 2
    ensures UploadOutcome(env).result == Err(env.uploadOnce(3).error)
  {
  }

  /** A key that cannot be read is never retried: no attempt is made. */
  lemma KeyErrorsAreNotRetried(env: SftpEnv)
    requires !KeyUsable(env)
    ensures UploadOutcome(env).attempts == 0 && UploadOutcome(env).sleeps == 0
    ensures UploadOutcome(env).result.Err?
  {
  }
}
