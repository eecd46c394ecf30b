/** `main()` (tests/test_aws_sso.py:278-302): the six checks run one after
    another through one `TestRunner`, and the exit status follows the summary. */
module Suite {
  import opened PyJson
  import opened ConfigProfiles
  import opened Runner
  import opened Checks

  /** Everything the six checks observe of the machine. */
  datatype Environment = Environment(
    helperVersion: CallResponse,          // `aws-sso-util --version`
    ssoCacheExists: bool,                 // `Path.exists()` of `~/.aws/sso/cache`
    cliCacheExists: bool,                 // `Path.exists()` of `~/.aws/cli/cache`
    helperMarkerExists: bool,             // `~/.aws/cli/cache/aws-sso-util.json` exists
    ssoCacheJsonFiles: nat,               // number of `*.json` in the SSO cache
    pathExists: string -> bool,           // `Path.exists()` of a marker path
    pathReadable: string -> bool,         // `Path.read_text()` of it returns
    identityDocument: Document,           // `/app/output/profiles_identity.json`
    config: Option<seq<string>>,          // lines of `~/.aws/config`, if it exists
    callerIdentity: string -> CallResponse // `aws sts get-caller-identity --profile P`
  )

  /** The verdicts of the six checks, in the order `main` runs them. */
  function SuiteVerdicts(env: Environment): (vs: seq<Verdict>)
    ensures |vs| == 6
  {
    [ HelperInstalledVerdict(env.helperVersion),
      AuthMethodVerdict(env.ssoCacheExists, env.cliCacheExists, env.helperMarkerExists, env.ssoCacheJsonFiles),
      MarkerFileVerdict(HelloPaths, env.pathExists, env.pathReadable),
      IdentityDocumentVerdict(env.identityDocument),
      DistinctPairsVerdict(env.config, env.identityDocument),
      CallerIdentityVerdict(env.config, env.callerIdentity) ]
  }

  /** `main()`: every check runs whatever the earlier ones did; the counters
      end as the tally of the six verdicts, and the exit status is 1 exactly
      when some check failed (warnings never change it). */
  method RunSuite(env: Environment) returns (runner: TestRunner, exitCode: int)
    ensures fresh(runner)
    ensures runner.Counters() == Tally(SuiteVerdicts(env))
    ensures exitCode == if Fail in SuiteVerdicts(env) then 1 else 0
  {
    runner := new TestRunner();
    ghost var vs := SuiteVerdicts(env);
    TestHelperInstalled(runner, env, vs[0]);
    ghost var c1 := runner.Counters();
    TestAuthenticationMethod(runner, env, vs[1]);
    ghost var c2 := runner.Counters();
    TestMarkerFile(runner, env, vs[2]);
    ghost var c3 := runner.Counters();
    TestIdentityDocument(runner, env, vs[3]);
    ghost var c4 := runner.Counters();
    TestDistinctPairs(runner, env, vs[4]);
    ghost var c5 := runner.Counters();
    TestCallerIdentity(runner, env, vs[5]);
    TallySix(vs, c1, c2, c3, c4, c5, runner.Counters());
    TallyNoFailure(SuiteVerdicts(env));
    var success := runner.Summary();
    exitCode := if success then 0 else 1;
  }

  // The six `runner.test(name, func)` calls of lines 287-292: each runs its
  // check and counts it as passed or failed.

  method TestHelperInstalled(runner: TestRunner, env: Environment, ghost v: Verdict)
    requires v == HelperInstalledVerdict(env.helperVersion)
    modifies runner
    ensures runner.Counters() == Record(old(runner.Counters()), v)
  {
    var raised := HelperInstalledVerdict(env.helperVersion) == Fail;
    var ok := runner.Test(raised);
  }

  method TestAuthenticationMethod(runner: TestRunner, env: Environment, ghost v: Verdict)
    requires v == AuthMethodVerdict(env.ssoCacheExists, env.cliCacheExists, env.helperMarkerExists, env.ssoCacheJsonFiles)
    modifies runner
    ensures runner.Counters() == Record(old(runner.Counters()), v)
  {
    var raised := CheckAuthenticationMethod(runner, env.ssoCacheExists, env.cliCacheExists,
                                            env.helperMarkerExists, env.ssoCacheJsonFiles);
    var ok := runner.Test(raised);
  }

  method TestMarkerFile(runner: TestRunner, env: Environment, ghost v: Verdict)
    requires v == MarkerFileVerdict(HelloPaths, env.pathExists, env.pathReadable)
    modifies runner
    ensures runner.Counters() == Record(old(runner.Counters()), v)
  {
    var raised := CheckMarkerFile(HelloPaths, env.pathExists, env.pathReadable);
    var ok := runner.Test(raised);
  }

  method TestIdentityDocument(runner: TestRunner, env: Environment, ghost v: Verdict)
    requires v == IdentityDocumentVerdict(env.identityDocument)
    modifies runner
    ensures runner.Counters() == Record(old(runner.Counters()), v)
  {
    var raised := IdentityDocumentVerdict(env.identityDocument) == Fail;
    var ok := runner.Test(raised);
  }

  method TestDistinctPairs(runner: TestRunner, env: Environment, ghost v: Verdict)
    requires v == DistinctPairsVerdict(env.config, env.identityDocument)
    modifies runner
    ensures runner.Counters() == Record(old(runner.Counters()), v)
  {
    var raised := CheckDistinctAccountRolePairs(runner, env.config, env.identityDocument);
    var ok := runner.Test(raised);
  }

  method TestCallerIdentity(runner: TestRunner, env: Environment, ghost v: Verdict)
    requires v == CallerIdentityVerdict(env.config, env.callerIdentity)
    modifies runner
    ensures runner.Counters() == Record(old(runner.Counters()), v)
  {
    var raised, attempted := CheckCallerIdentity(runner, env.config, env.callerIdentity);
    var ok := runner.Test(raised);
  }

  /** Counters that start at zero and record six verdicts in turn end as their tally. */
  lemma TallySix(vs: seq<Verdict>, c1: Counts, c2: Counts, c3: Counts, c4: Counts, c5: Counts, c6: Counts)
    requires |vs| == 6
    requires c1 == Record(Counts(0, 0, 0), vs[0]) && c2 == Record(c1, vs[1]) && c3 == Record(c2, vs[2])
    requires c4 == Record(c3, vs[3]) && c5 == Record(c4, vs[4]) && c6 == Record(c5, vs[5])
    ensures c6 == Tally(vs)
  {
    var p1, p2, p3, p4, p5 := vs[..1], vs[..2], vs[..3], vs[..4], vs[..5];
    assert Tally(p1) == c1 by { TallyAppend([], vs[0]); assert [] + [vs[0]] == p1; }
    assert Tally(p2) == c2 by { TallyAppend(p1, vs[1]); assert p1 + [vs[1]] == p2; }
    assert Tally(p3) == c3 by { TallyAppend(p2, vs[2]); assert p2 + [vs[2]] == p3; }
    assert Tally(p4) == c4 by { TallyAppend(p3, vs[3]); assert p3 + [vs[3]] == p4; }
    assert Tally(p5) == c5 by { TallyAppend(p4, vs[4]); assert p4 + [vs[4]] == p5; }
    TallyAppend(p5, vs[5]);
    assert p5 + [vs[5]] == vs;
  }

  /** A missing helper does not stop the run: all six checks are still
      counted, the later ones can still pass or warn, and the exit status is 1. */
  lemma MissingHelperStillRunsAll(env: Environment)
    requires env.helperVersion.CallRaised?
    ensures var c := Tally(SuiteVerdicts(env));
      c.passed + c.failed == 6 && c.failed >= 1 && c.failed == 1 + |Fails(SuiteVerdicts(env)[1..])|
  {
    var vs := SuiteVerdicts(env);
    FailsCount(vs);
    assert vs == [vs[0]] + vs[1..];
  }
}
