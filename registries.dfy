/** Registry login sequencing of src/registries.js.

    `registryConfigOption(registries)` runs one `docker login` per registry, in
    the order of `Object.keys(registries)`, each started only once the previous
    one has exited. A non-zero exit writes a warning and the loop goes on; the
    promise always resolves to an empty argument list.

    The registries object is the sequence of its entries in key order. The
    child processes are not run: what the method does is recorded as a trace of
    events, and the exit status of each login is given in advance (None for a
    process killed by a signal, whose `code` is null). */
module Registries {
  import opened Optional

  const DockerHubRegistryUrl: string := "https://index.docker.io/v1/"
  const Command: string := "docker"
  const IgnoreStdio: string := "ignore"

  datatype Credentials = Credentials(username: string, password: string)

  /** One `spawn(command, args, { stdio })` call. */
  datatype Spawn = Spawn(command: string, args: seq<string>, stdio: string)

  datatype Event =
    | Spawned(spawn: Spawn)
    | Exited(code: Option<int>)
    | Warned(text: string)           // the yellow warning, colouring aside

  /** The arguments of `docker login` for one registry: Docker Hub is the
      default server, so its URL is left out. The special case loses nothing:
      the arguments always designate the registry and credentials they were
      built from. */
  function LoginArgs(domain: string, credentials: Credentials): (args: seq<string>)
    ensures LoginTarget(args) == Some((domain, credentials))
    ensures domain == DockerHubRegistryUrl <==> |args| == 5
    ensures domain != DockerHubRegistryUrl ==> args[1] == domain
  {
    if domain == DockerHubRegistryUrl then
      ["login", "-u", credentials.username, "-p", credentials.password]
    else
      ["login", domain, "-u", credentials.username, "-p", credentials.password]
  }

  /** The registry and credentials a `docker login` argument list designates;
      without a server operand the login goes to Docker Hub. */
  function LoginTarget(args: seq<string>): Option<(string, Credentials)>
  {
    if |args| == 5 && args[0] == "login" && args[1] == "-u" && args[3] == "-p" then
      Some((DockerHubRegistryUrl, Credentials(args[2], args[4])))
    else if |args| == 6 && args[0] == "login" && args[2] == "-u" && args[4] == "-p" then
      Some((args[1], Credentials(args[3], args[5])))
    else None
  }

  function LoginSpawn(registry: (string, Credentials)): Spawn
  {
    Spawn(Command, LoginArgs(registry.0, registry.1), IgnoreStdio)
  }

  function Warning(domain: string): string
  {
    "problem connecting to '" + domain + "'\n"
  }

  /** What one step of the loop does: start the login, wait for its exit, and
      warn unless it exited with 0. */
  function LoginStep(registry: (string, Credentials), code: Option<int>): seq<Event>
  {
    [Spawned(LoginSpawn(registry)), Exited(code)]
      + (if code != Some(0) then [Warned(Warning(registry.0))] else [])
  }

  /** The events of the whole sequential loop. */
  function LoginTrace(registries: seq<(string, Credentials)>, codes: seq<Option<int>>): seq<Event>
    requires |codes| == |registries|
  {
    if registries == [] then []
    else LoginTrace(registries[..|registries| - 1], codes[..|codes| - 1])
           + LoginStep(registries[|registries| - 1], codes[|codes| - 1])
  }

  /** `registryConfigOption(registries)`, with the exit status of the k-th login given as `codes[k]`. */
  method RegistryConfigOption(registries: seq<(string, Credentials)>, codes: seq<Option<int>>)
    returns (result: seq<string>, trace: seq<Event>)
    requires |codes| == |registries|
    ensures result == []
    ensures trace == LoginTrace(registries, codes)
  {
    trace := [];
    var i := 0;
    while i < |registries|
      invariant 0 <= i <= |registries|
      invariant trace == LoginTrace(registries[..i], codes[..i])
    {
      var (domain, credentials) := registries[i];
      var args;
      if domain == DockerHubRegistryUrl {
        args := ["login", "-u", credentials.username, "-p", credentials.password];
      } else {
        args := ["login", domain, "-u", credentials.username, "-p", credentials.password];
      }
      trace := trace + [Spawned(Spawn(Command, args, IgnoreStdio))];
      var code := codes[i];
      trace := trace + [Exited(code)];
      if code != Some(0) {
        trace := trace + [Warned(Warning(domain))];
      }
      assert registries[..i + 1][..i] == registries[..i];
      assert codes[..i + 1][..i] == codes[..i];
      assert args == LoginArgs(domain, credentials);
      assert trace == LoginTrace(registries[..i], codes[..i]) + LoginStep(registries[i], code);
      i := i + 1;
    }
    assert registries[..i] == registries && codes[..i] == codes;
    result := [];
  }

  // ---------------------------------------------------------------------------
  // Specification helpers over traces
  // ---------------------------------------------------------------------------

  /** The spawn calls of a trace, in order. */
  function Spawns(trace: seq<Event>): seq<Spawn>
  {
    if trace == [] then []
    else Spawns(trace[..|trace| - 1]) + (if trace[|trace| - 1].Spawned? then [trace[|trace| - 1].spawn] else [])
  }

  /** The warnings of a trace, in order. */
  function Warnings(trace: seq<Event>): seq<string>
  {
    if trace == [] then []
    else Warnings(trace[..|trace| - 1]) + (if trace[|trace| - 1].Warned? then [trace[|trace| - 1].text] else [])
  }

  /** Logins started and not yet exited after a trace. */
  function Running(trace: seq<Event>): int
  {
    if trace == [] then 0
    else Running(trace[..|trace| - 1])
           + (if trace[|trace| - 1].Spawned? then 1 else if trace[|trace| - 1].Exited? then -1 else 0)
  }

  /** The warnings owed for a sequence of registries and exit statuses. */
  function FailureWarnings(registries: seq<(string, Credentials)>, codes: seq<Option<int>>): seq<string>
    requires |codes| == |registries|
  {
    if registries == [] then []
    else FailureWarnings(registries[..|registries| - 1], codes[..|codes| - 1])
           + (if codes[|codes| - 1] != Some(0) then [Warning(registries[|registries| - 1].0)] else [])
  }

  // ---------------------------------------------------------------------------
  // Properties
  // ---------------------------------------------------------------------------

  lemma {:induction false} SpawnsAppend(a: seq<Event>, b: seq<Event>)
    ensures Spawns(a + b) == Spawns(a) + Spawns(b)
    ensures Warnings(a + b) == Warnings(a) + Warnings(b)
    ensures Running(a + b) == Running(a) + Running(b)
    decreases |b|
  {
    if b == [] {
      assert a + b == a;
    } else {
      var init := b[..|b| - 1];
      assert (a + b)[..|a + b| - 1] == a + init;
      SpawnsAppend(a, init);
    }
  }

  /** The events of one loop step, prefix by prefix. */
  lemma LoginStepEvents(registry: (string, Credentials), code: Option<int>)
    ensures Spawns(LoginStep(registry, code)) == [LoginSpawn(registry)]
    ensures Warnings(LoginStep(registry, code)) == if code != Some(0) then [Warning(registry.0)] else []
    ensures Running(LoginStep(registry, code)) == 0
    ensures forall j :: 0 <= j <= |LoginStep(registry, code)| ==> 0 <= Running(LoginStep(registry, code)[..j]) <= 1
  {
    var e0, e1, e2 := Spawned(LoginSpawn(registry)), Exited(code), Warned(Warning(registry.0));
    var one, two, three := [e0], [e0, e1], [e0, e1, e2];
    assert one[..0] == [] && two[..1] == one && three[..2] == two;
    assert Running([]) == 0 && Warnings([]) == [];
    assert Spawns(one) == [LoginSpawn(registry)];
    assert Warnings(one) == Warnings(one[..0]) == [];
    assert Running(one) == Running(one[..0]) + 1 == 1;
    assert Spawns(two) == [LoginSpawn(registry)] && Warnings(two) == [] && Running(two) == 0;
    assert Spawns(three) == [LoginSpawn(registry)] && Warnings(three) == [Warning(registry.0)] && Running(three) == 0;
    var step := LoginStep(registry, code);
    assert step == if code != Some(0) then three else two;
    assert step[..0] == [] && step[..1] == one && step[..2] == two;
    assert Running([]) == 0;
    assert |step| == 3 ==> step[..3] == three;
  }

  /** What the last loop step adds to the trace's spawns, warnings and running count. */
  lemma LoginTraceLastStep(registries: seq<(string, Credentials)>, codes: seq<Option<int>>, n: nat)
    requires |codes| == |registries| == n + 1
    ensures Spawns(LoginTrace(registries, codes)) == Spawns(LoginTrace(registries[..n], codes[..n])) + [LoginSpawn(registries[n])]
    ensures Warnings(LoginTrace(registries, codes)) == Warnings(LoginTrace(registries[..n], codes[..n])) + Warnings(LoginStep(registries[n], codes[n]))
    ensures Running(LoginTrace(registries, codes)) == Running(LoginTrace(registries[..n], codes[..n]))
  {
    var before := LoginTrace(registries[..n], codes[..n]);
    var step := LoginStep(registries[n], codes[n]);
    assert LoginTrace(registries, codes) == before + step;
    SpawnsAppend(before, step);
    LoginStepEvents(registries[n], codes[n]);
  }

  /** Exactly one `docker login` per registry, in key order, whatever the exit
      statuses: a failed login does not stop the ones after it. */
  lemma {:induction false} OneLoginPerRegistry(registries: seq<(string, Credentials)>, codes: seq<Option<int>>)
    requires |codes| == |registries|
    ensures |Spawns(LoginTrace(registries, codes))| == |registries|
    ensures forall k :: 0 <= k < |registries| ==> Spawns(LoginTrace(registries, codes))[k] == LoginSpawn(registries[k])
    ensures Warnings(LoginTrace(registries, codes)) == FailureWarnings(registries, codes)
    ensures Running(LoginTrace(registries, codes)) == 0
  {
    SpawnsFollowRegistries(registries, codes);
    WarningsAreOwed(registries, codes);
    NoneLeftRunning(registries, codes);
  }

  lemma {:induction false} SpawnsFollowRegistries(registries: seq<(string, Credentials)>, codes: seq<Option<int>>)
    requires |codes| == |registries|
    ensures |Spawns(LoginTrace(registries, codes))| == |registries|
    ensures forall k :: 0 <= k < |registries| ==> Spawns(LoginTrace(registries, codes))[k] == LoginSpawn(registries[k])
    decreases |registries|
  {
    if registries != [] {
      var n := |registries| - 1;
      SpawnsFollowRegistries(registries[..n], codes[..n]);
      LoginTraceLastStep(registries, codes, n);
      forall k | 0 <= k < n
        ensures Spawns(LoginTrace(registries, codes))[k] == LoginSpawn(registries[k])
      {
        assert registries[..n][k] == registries[k];
      }
    }
  }

  lemma {:induction false} WarningsAreOwed(registries: seq<(string, Credentials)>, codes: seq<Option<int>>)
    requires |codes| == |registries|
    ensures Warnings(LoginTrace(registries, codes)) == FailureWarnings(registries, codes)
    decreases |registries|
  {
    if registries != [] {
      var n := |registries| - 1;
      WarningsAreOwed(registries[..n], codes[..n]);
      LoginTraceLastStep(registries, codes, n);
      LoginStepEvents(registries[n], codes[n]);
    }
  }

  lemma {:induction false} NoneLeftRunning(registries: seq<(string, Credentials)>, codes: seq<Option<int>>)
    requires |codes| == |registries|
    ensures Running(LoginTrace(registries, codes)) == 0
    decreases |registries|
  {
    if registries != [] {
      var n := |registries| - 1;
      NoneLeftRunning(registries[..n], codes[..n]);
      LoginTraceLastStep(registries, codes, n);
    }
  }

  /** Every spawn runs `docker` with its stdio ignored. */
  lemma LoginsUseDockerQuietly(registries: seq<(string, Credentials)>, codes: seq<Option<int>>)
    requires |codes| == |registries|
    ensures forall s :: s in Spawns(LoginTrace(registries, codes)) ==> s.command == "docker" && s.stdio == "ignore"
  {
    OneLoginPerRegistry(registries, codes);
  }

  /** Strictly sequential: at every point of the trace at most one login is
      running, and none is left running at the end. */
  lemma {:induction false} LoginsAreSequential(registries: seq<(string, Credentials)>, codes: seq<Option<int>>)
    requires |codes| == |registries|
    ensures forall n :: 0 <= n <= |LoginTrace(registries, codes)| ==> 0 <= Running(LoginTrace(registries, codes)[..n]) <= 1
    decreases |registries|
  {
    var trace := LoginTrace(registries, codes);
    if registries != [] {
      var m := |registries| - 1;
      var before := LoginTrace(registries[..m], codes[..m]);
      var step := LoginStep(registries[m], codes[m]);
      assert trace == before + step;
      LoginsAreSequential(registries[..m], codes[..m]);
      OneLoginPerRegistry(registries[..m], codes[..m]);
      forall n | 0 <= n <= |trace|
        ensures 0 <= Running(trace[..n]) <= 1
      {
        if n <= |before| {
          assert trace[..n] == before[..n];
        } else {
          var j := n - |before|;
          assert trace[..n] == before + step[..j];
          SpawnsAppend(before, step[..j]);
          LoginStepEvents(registries[m], codes[m]);
        }
      }
    }
  }

  /** One warning per login that did not exit with 0, naming its registry, in key order. */
  lemma {:induction false} WarningsForFailures(registries: seq<(string, Credentials)>, codes: seq<Option<int>>)
    requires |codes| == |registries|
    ensures |FailureWarnings(registries, codes)| == |set k | 0 <= k < |codes| && codes[k] != Some(0)|
    decreases |registries|
  {
    if registries != [] {
      var n := |registries| - 1;
      WarningsForFailures(registries[..n], codes[..n]);
      var before := set k | 0 <= k < n && codes[..n][k] != Some(0);
      var all := set k | 0 <= k < |codes| && codes[k] != Some(0);
      assert all == before + (if codes[n] != Some(0) then {n} else {});
    }
  }
}
