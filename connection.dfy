/**
 * The connection flags of the MT5 client (`initialize`, `_login`,
 * `ensure_initialized`, `shutdown`, `is_connected`).  The native calls are
 * replaced by an `Environment` that says how each of them answers.
 */
module Connection {
  import opened Wrappers

  /** How `mt5.initialize` is called: with the configured terminal path, or auto-detecting. */
  datatype InitCall = WithPath | AutoDetect

  /** The answers of the native calls one `initialize` makes. */
  datatype Environment = Environment(
    pathConfigured: bool,   // `config.path` is set
    pathExists: bool,       // the configured path exists on disk
    initializeOk: bool,     // `mt5.initialize(...)` succeeds
    lastErrorCode: int,     // `mt5.last_error()` code after a failed initialize
    credentials: bool,      // `config.validate()`: login, password and server are set
    loginOk: bool)          // `mt5.login(...)` succeeds

  /** What `mt5.account_info()` does when the liveness of a connection is probed. */
  datatype Probe = AccountPresent | AccountMissing | ProbeRaised

  /** The hint appended to an initialisation failure for the well-known terminal error codes. */
  datatype InitHint = PathInvalid | NotAuthorised | NotInstalled

  datatype InitFailure = InitializeFailed(code: int, hint: Option<InitHint>) | LoginFailed

  function InitFailureHint(code: int): (h: Option<InitHint>)
    ensures h.Some? <==> code in {-10003, -10002, -10001}
    ensures h == Some(PathInvalid) <==> code == -10003
    ensures h == Some(NotAuthorised) <==> code == -10002
    ensures h == Some(NotInstalled) <==> code == -10001
  {
    if code == -10003 then Some(PathInvalid)
    else if code == -10002 then Some(NotAuthorised)
    else if code == -10001 then Some(NotInstalled)
    else None
  }

  function CallFor(env: Environment): (c: InitCall)
    ensures c == WithPath <==> env.pathConfigured && env.pathExists
  {
    if env.pathConfigured && env.pathExists then WithPath else AutoDetect
  }

  /** Whether an `initialize` in environment `env` succeeds. */
  predicate InitializeSucceeds(env: Environment) {
    env.initializeOk && (!env.credentials || env.loginOk)
  }

  class MT5Client {
    var initialized: bool
    var connected: bool

    /** The client is never connected without being initialised. */
    ghost predicate Valid()
      reads this
    {
      connected ==> initialized
    }

    constructor()
      ensures Valid()
      ensures !initialized && !connected
    {
      initialized := false;
      connected := false;
    }

    /** Clears both flags, and only when the terminal was initialised. */
    method Shutdown()
      requires Valid()
      modifies this
      ensures Valid()
      ensures !initialized && !connected
      ensures !old(initialized) ==> connected == old(connected)
    {
      if initialized {
        initialized := false;
        connected := false;
      }
    }

    method Initialize(env: Environment) returns (ok: bool, shutFirst: bool, call: InitCall, failure: Option<InitFailure>)
      requires Valid()
      modifies this
      ensures Valid()
      ensures shutFirst == old(initialized)
      ensures call == CallFor(env)
      ensures ok <==> InitializeSucceeds(env)
      ensures ok <==> failure.None?
      ensures ok ==> initialized && connected
      ensures !ok ==> !initialized && !connected
      ensures !env.initializeOk ==>
        failure == Some(InitializeFailed(env.lastErrorCode, InitFailureHint(env.lastErrorCode)))
      ensures env.initializeOk && env.credentials && !env.loginOk ==> failure == Some(LoginFailed)
    {
      shutFirst := initialized;
      if initialized {
        Shutdown();
      }
      call := CallFor(env);
      if !env.initializeOk {
        ok := false;
        failure := Some(InitializeFailed(env.lastErrorCode, InitFailureHint(env.lastErrorCode)));
        return;
      }
      initialized := true;
      if env.credentials {
        if !env.loginOk {
          Shutdown();
          ok := false;
          failure := Some(LoginFailed);
          return;
        }
        connected := true;
      } else {
        connected := true;
      }
      ok := true;
      failure := None;
    }

    /**
     * Keeps a live connection; anything else (never connected, a missing
     * account, a probe that raises) re-initialises.
     */
    method EnsureInitialized(probe: Probe, env: Environment) returns (ok: bool, reinitialised: bool)
      requires Valid()
      modifies this
      ensures Valid()
      ensures reinitialised <==> !(old(initialized) && old(connected) && probe == AccountPresent)
      ensures !reinitialised ==> ok && initialized == old(initialized) && connected == old(connected)
      ensures reinitialised ==> (ok <==> InitializeSucceeds(env))
      ensures ok <==> initialized && connected
    {
      if initialized && connected && probe == AccountPresent {
        return true, false;
      }
      var shut, call, failure;
      ok, shut, call, failure := Initialize(env);
      reinitialised := true;
    }

    method IsConnected(probe: Probe) returns (b: bool)
      ensures b <==> initialized && connected && probe == AccountPresent
    {
      b := initialized && connected && probe == AccountPresent;
    }
  }
}
