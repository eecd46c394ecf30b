/** The six checks of tests/test_aws_sso.py:65-275, each as the verdict it
    reaches (a function) and, where the source loops or warns through the
    runner, as a method proved to reach that verdict (the methods that warn
    take the runner). What the checks observe
    of the machine (files, directories, subprocess results) arrives as parameters. */
module Checks {
  import opened PyText
  import opened PyJson
  import opened IdentityDocument
  import opened ConfigProfiles
  import opened Runner

  /** How a `subprocess.run` call ends: the process completed with a return
      code, and `json.loads` of its standard output returned or raised; or the
      call itself raised (executable missing, timeout). */
  datatype CallResponse = Completed(returnCode: int, output: Outcome<JValue>) | CallRaised

  /** The identity document as found on disk: absent, not valid JSON, or parsed. */
  datatype Document = Missing | Malformed | Parsed(value: JValue)

  // ---------------------------------------------------------------------------
  // Test 1 (lines 65-79): `aws-sso-util --version`.

  /** Passes exactly when the helper ran and exited 0; there is no warning path. */
  function HelperInstalledVerdict(version: CallResponse): (v: Verdict)
    ensures v != Warned
    ensures v == Pass <==> version.Completed? && version.returnCode == 0
  {
    if version.Completed? && version.returnCode == 0 then Pass else Fail
  }

  // ---------------------------------------------------------------------------
  // Test 2 (lines 82-100): evidence that the helper performed the login.

  /** The decision table of lines 89-100: no cache directory fails; the helper
      marker or a `*.json` in an existing SSO cache passes; otherwise warn. */
  function AuthMethodVerdict(ssoCache: bool, cliCache: bool, helperMarker: bool, ssoJsonFiles: nat): (v: Verdict)
    ensures v == Fail <==> !ssoCache && !cliCache
    ensures v == Pass <==> (ssoCache || cliCache) && (helperMarker || (ssoCache && ssoJsonFiles > 0))
    ensures v == Warned <==> (ssoCache || cliCache) && !helperMarker && !(ssoCache && ssoJsonFiles > 0)
  {
    if !(ssoCache || cliCache) then Fail
    else if helperMarker || (if ssoCache then ssoJsonFiles else 0) > 0 then Pass
    else Warned
  }

  /** A rank of verdicts: Fail below Warned below Pass. */
  function Rank(v: Verdict): nat
  {
    match v
    case Fail => 0
    case Warned => 1
    case Pass => 2
  }

  /** More evidence never gives a worse verdict. */
  lemma AuthMethodMonotone(sso: bool, cli: bool, marker: bool, files: nat,
                           sso': bool, cli': bool, marker': bool, files': nat)
    requires (sso ==> sso') && (cli ==> cli') && (marker ==> marker') && files <= files'
    ensures Rank(AuthMethodVerdict(sso, cli, marker, files)) <= Rank(AuthMethodVerdict(sso', cli', marker', files'))
  {
  }

  /** `test_authentication_method(runner)`. */
  method CheckAuthenticationMethod(runner: TestRunner, ssoCache: bool, cliCache: bool, helperMarker: bool, ssoJsonFiles: nat)
    returns (raised: bool)
    modifies runner
    ensures raised <==> AuthMethodVerdict(ssoCache, cliCache, helperMarker, ssoJsonFiles) == Fail
    ensures runner.Counters() == Warnings(old(runner.Counters()), AuthMethodVerdict(ssoCache, cliCache, helperMarker, ssoJsonFiles))
  {
    var cacheExists := ssoCache || cliCache;
    if !cacheExists {
      return true;
    }
    var ssoCacheFiles := if ssoCache then ssoJsonFiles else 0;
    if !(helperMarker || ssoCacheFiles > 0) {
      runner.Warn();
    }
    raised := false;
  }

  // ---------------------------------------------------------------------------
  // Test 3 (lines 103-120): the hello file at the first of three candidate paths.

  const HelloPaths: seq<string> := ["/app/hello world", "/app/hello.txt", "/app/git_task/hello world"]

  /** The position of the first path that exists. */
  function FirstExisting(paths: seq<string>, pathExists: string -> bool): (r: Option<nat>)
    ensures r.Some? ==>
      r.value < |paths| && pathExists(paths[r.value]) && forall j :: 0 <= j < r.value ==> !pathExists(paths[j])
    ensures r.None? <==> forall j :: 0 <= j < |paths| ==> !pathExists(paths[j])
  {
    if paths == [] then None
    else if pathExists(paths[0]) then Some(0)
    else
      match FirstExisting(paths[1..], pathExists)
      case None => None
      case Some(i) => Some(i + 1)
  }

  /** Passes when some candidate exists and the first existing one can be read;
      a read error there fails the check without trying the later paths. */
  function MarkerFileVerdict(paths: seq<string>, pathExists: string -> bool, readable: string -> bool): (v: Verdict)
    ensures v != Warned
    ensures v == Pass <==> exists i :: 0 <= i < |paths| && pathExists(paths[i]) && readable(paths[i])
                                     && forall j :: 0 <= j < i ==> !pathExists(paths[j])
  {
    match FirstExisting(paths, pathExists)
    case None => Fail
    case Some(i) => if readable(paths[i]) then Pass else Fail
  }

  /** `test_hello_txt_content()`: the search loop that stops at the first existing path. */
  method CheckMarkerFile(paths: seq<string>, pathExists: string -> bool, readable: string -> bool) returns (raised: bool)
    ensures raised <==> MarkerFileVerdict(paths, pathExists, readable) == Fail
  {
    var found := false;
    var i := 0;
    while i < |paths|
      invariant 0 <= i <= |paths|
      invariant forall j :: 0 <= j < i ==> !pathExists(paths[j])
    {
      if pathExists(paths[i]) {
        if !readable(paths[i]) {
          return true;
        }
        found := true;
        break;
      }
      i := i + 1;
    }
    raised := !found;
  }

  // ---------------------------------------------------------------------------
  // Test 4 (lines 123-146): the identity document exists, parses, and is a list or dict.

  /** Fails when the file is missing, is not JSON, or holds neither a list nor
      a dict; passes otherwise, an empty list or dict included. */
  function IdentityDocumentVerdict(doc: Document): (v: Verdict)
    ensures v != Warned
    ensures v == Pass <==> doc.Parsed? && (doc.value.JArr? || doc.value.JObj?)
  {
    match doc
    case Missing => Fail
    case Malformed => Fail
    case Parsed(data) => if ProfileCount(data).Returned? then Pass else Fail
  }

  // ---------------------------------------------------------------------------
  // Test 5 (lines 149-220): the first two profiles have distinct account-role pairs.

  /** The verdict of lines 205-220 for two profile names: a lookup that
      raises fails the check; otherwise an unresolved profile warns and two
      resolved ones fail exactly when their pair strings are equal. */
  function PairsVerdict(name1: string, name2: string, data: JValue): (v: Verdict)
    ensures GetAccountRole(name1, data).Raised? || GetAccountRole(name2, data).Raised? ==> v == Fail
    ensures v != Fail ==> GetAccountRole(name1, data).Returned? && GetAccountRole(name2, data).Returned?
    ensures v == Warned <==> && GetAccountRole(name1, data).Returned? && GetAccountRole(name2, data).Returned?
                             && ComparePairs(GetAccountRole(name1, data).value, GetAccountRole(name2, data).value) == Unresolved
  {
    match (GetAccountRole(name1, data), GetAccountRole(name2, data))
    case (Returned(first), Returned(second)) =>
      (match ComparePairs(first, second)
       case Distinct => Pass
       case Shared => Fail
       case Unresolved => Warned)
    case _ => Fail
  }

  /** Swapping the two profiles never changes the verdict. */
  lemma PairsVerdictSymmetric(name1: string, name2: string, data: JValue)
    ensures PairsVerdict(name1, name2, data) == PairsVerdict(name2, name1, data)
  {
    match (GetAccountRole(name1, data), GetAccountRole(name2, data))
    case (Returned(first), Returned(second)) => ComparePairsSymmetric(first, second);
    case _ =>
  }

  /** Lines 149-220 as a whole. */
  function DistinctPairsVerdict(config: Option<seq<string>>, doc: Document): (v: Verdict)
    ensures config.None? ==> v == Fail
    ensures config.Some? && |ProfileNames(config.value)| < 2 ==> v == Fail
    ensures config.Some? && |ProfileNames(config.value)| >= 2 && doc.Missing? ==> v == Warned
    ensures doc.Malformed? ==> v == Fail
  {
    if config.None? then Fail
    else
      var profiles := ProfileNames(config.value);
      if |profiles| < 2 then Fail
      else
        match doc
        case Missing => Warned
        case Malformed => Fail
        case Parsed(data) => PairsVerdict(profiles[0], profiles[1], data)
  }

  /** A config holding the headers of `a` and then `b` names exactly those two profiles. */
  lemma TwoHeaders(a: string, b: string)
    requires PlainName(a) && PlainName(b)
    ensures ProfileNames([HeaderLine(a), HeaderLine(b)]) == [a, b]
  {
    HeaderRoundTrip(a);
    HeaderRoundTrip(b);
    ProfileNamesOfLine(HeaderLine(a));
    ProfileNamesOfLine(HeaderLine(b));
    ProfileNamesAppend([HeaderLine(a)], [HeaderLine(b)]);
    assert [HeaderLine(a), HeaderLine(b)] == [HeaderLine(a)] + [HeaderLine(b)];
  }

  /** A dict record `{"Account": account, "RoleName": role}`. */
  function Assignment(account: string, role: string): JValue
  {
    JObj([("Account", JStr(account)), ("RoleName", JStr(role))])
  }

  lemma AssignmentFields(account: string, role: string)
    requires account != [] && role != []
    ensures RecordFields(Assignment(account, role)) == Returned(AccountRole(JStr(account), JStr(role)))
  {
    var members := Assignment(account, role).members;
    assert Get(members, "Account") == JStr(account);
    assert Get(members, "RoleName") == JStr(role) by {
      assert members[0].0 != "RoleName";
      assert members[1..][0].0 == "RoleName";
    }
  }

  /** A dict document keyed by the two profile names, with non-empty accounts and
      roles, passes exactly when the two `account:role` strings differ, and fails
      otherwise. */
  lemma KeyedDocumentVerdict(a: string, b: string, accountA: string, roleA: string, accountB: string, roleB: string)
    requires PlainName(a) && PlainName(b) && a != b
    requires accountA != [] && roleA != [] && accountB != [] && roleB != []
    ensures DistinctPairsVerdict(Some([HeaderLine(a), HeaderLine(b)]),
                                 Parsed(JObj([(a, Assignment(accountA, roleA)), (b, Assignment(accountB, roleB))])))
            == if accountA + ":" + roleA == accountB + ":" + roleB then Fail else Pass
  {
    var config := [HeaderLine(a), HeaderLine(b)];
    var entryA, entryB := (a, Assignment(accountA, roleA)), (b, Assignment(accountB, roleB));
    var data := JObj([entryA, entryB]);
    var first, second := AccountRole(JStr(accountA), JStr(roleA)), AccountRole(JStr(accountB), JStr(roleB));
    TwoHeaders(a, b);
    assert GetAccountRole(a, data) == Returned(first) by {
      KeyedLookup(a, [], [entryA, entryB]);
      assert [] + [entryA, entryB] == [entryA, entryB];
      AssignmentFields(accountA, roleA);
    }
    assert GetAccountRole(b, data) == Returned(second) by {
      KeyedLookup(b, [entryA], [entryB]);
      assert [entryA] + [entryB] == [entryA, entryB];
      AssignmentFields(accountB, roleB);
    }
    assert PairText(first) == accountA + ":" + roleA && PairText(second) == accountB + ":" + roleB;
    assert Resolved(first) && Resolved(second);
    ResolvedPairsVerdict(config, data, first, second);
  }

  /** Looking up the first entry of `members`, which `others` does not key. */
  lemma KeyedLookup(name: string, others: seq<(string, JValue)>, members: seq<(string, JValue)>)
    requires members != [] && members[0].0 == name && name !in Keys(others)
    ensures GetAccountRole(name, JObj(others + members)) == RecordFields(members[0].1)
  {
    assert name in Keys(members);
    DirectKeyWins(name, others, members);
  }

  /** A list document whose records all name `a` leaves a second profile `b`
      unresolved: the check warns and does not fail. */
  lemma MissingRecordWarns(a: string, b: string, account: string, role: string)
    requires PlainName(a) && PlainName(b) && a != b
    requires account != [] && role != []
    ensures var record := JObj([("ProfileName", JStr(a)), ("Account", JStr(account)), ("RoleName", JStr(role))]);
      DistinctPairsVerdict(Some([HeaderLine(a), HeaderLine(b)]), Parsed(JArr([record, record]))) == Warned
  {
    var record := JObj([("ProfileName", JStr(a)), ("Account", JStr(account)), ("RoleName", JStr(role))]);
    var data := JArr([record, record]);
    TwoHeaders(a, b);
    assert Names(record, a) && !Names(record, b) by {
      assert Get(record.members, "ProfileName") == JStr(a);
    }
    assert GetAccountRole(a, data).Returned? by {
      FirstListMatchWins(a, [], record, [record]);
      assert [] + [record] + [record] == [record, record];
    }
    assert GetAccountRole(b, data) == Returned(AccountRole(JNull, JNull)) by {
      assert FirstListMatch([record, record], b) == Returned(JNull) by {
        assert [record, record][1..] == [record];
        assert [record][1..] == [];
      }
    }
    UnresolvedOnlyWarns([HeaderLine(a), HeaderLine(b)], data, GetAccountRole(a, data).value, AccountRole(JNull, JNull));
  }

  /** Two looked-up profiles that are both resolved fail the check exactly
      when their `account:role` strings are equal, and pass otherwise. */
  lemma ResolvedPairsVerdict(config: seq<string>, data: JValue, first: AccountRole, second: AccountRole)
    requires |ProfileNames(config)| >= 2
    requires GetAccountRole(ProfileNames(config)[0], data) == Returned(first)
    requires GetAccountRole(ProfileNames(config)[1], data) == Returned(second)
    requires Resolved(first) && Resolved(second)
    ensures DistinctPairsVerdict(Some(config), Parsed(data)) == if PairText(first) == PairText(second) then Fail else Pass
  {
  }

  /** A lookup that raises fails the check, whichever of the two profiles it is for. */
  lemma LookupRaisesFails(config: seq<string>, data: JValue)
    requires |ProfileNames(config)| >= 2
    requires GetAccountRole(ProfileNames(config)[0], data).Raised? || GetAccountRole(ProfileNames(config)[1], data).Raised?
    ensures DistinctPairsVerdict(Some(config), Parsed(data)) == Fail
  {
  }

  /** A list document with an item that is not a dict, reached before any
      record of the first profile, fails the check (`.get` raises at line 193). */
  lemma NonDictItemFails(config: seq<string>, before: seq<JValue>, item: JValue, after: seq<JValue>)
    requires |ProfileNames(config)| >= 2
    requires forall j :: 0 <= j < |before| ==> before[j].JObj? && !Names(before[j], ProfileNames(config)[0])
    requires !item.JObj?
    ensures DistinctPairsVerdict(Some(config), Parsed(JArr(before + [item] + after))) == Fail
  {
    var items := before + [item] + after;
    var name := ProfileNames(config)[0];
    assert !items[|before|].JObj? && NoneNamedBefore(items, name, |before|);
    WhenLookupRaises(name, JArr(items));
    LookupRaisesFails(config, JArr(items));
  }

  /** A profile that cannot be resolved only warns: the check does not fail. */
  lemma UnresolvedOnlyWarns(config: seq<string>, data: JValue, first: AccountRole, second: AccountRole)
    requires |ProfileNames(config)| >= 2
    requires GetAccountRole(ProfileNames(config)[0], data) == Returned(first)
    requires GetAccountRole(ProfileNames(config)[1], data) == Returned(second)
    requires !Resolved(first) || !Resolved(second)
    ensures DistinctPairsVerdict(Some(config), Parsed(data)) == Warned
  {
  }

  /** `test_distinct_account_role_pairs(runner)`. */
  method CheckDistinctAccountRolePairs(runner: TestRunner, config: Option<seq<string>>, doc: Document)
    returns (raised: bool)
    modifies runner
    ensures raised <==> DistinctPairsVerdict(config, doc) == Fail
    ensures runner.Counters() == Warnings(old(runner.Counters()), DistinctPairsVerdict(config, doc))
  {
    if config.None? {
      return true;
    }
    var profiles := ExtractProfiles(config.value);
    if |profiles| < 2 {
      return true;
    }
    if doc.Missing? {
      runner.Warn();
      return false;
    }
    if doc.Malformed? {
      return true;
    }
    var profile1, profile2 := profiles[0], profiles[1];
    var lookup1 := GetAccountRole(profile1, doc.value);
    if lookup1.Raised? {
      return true;
    }
    var lookup2 := GetAccountRole(profile2, doc.value);
    if lookup2.Raised? {
      return true;
    }
    var first, second := lookup1.value, lookup2.value;
    if Truthy(first.account) && Truthy(first.role) && Truthy(second.account) && Truthy(second.role) {
      var pair1 := PairText(first);
      var pair2 := PairText(second);
      raised := pair1 == pair2;
    } else {
      runner.Warn();
      raised := false;
    }
  }

  // ---------------------------------------------------------------------------
  // Test 6 (lines 223-275): `aws sts get-caller-identity` for the first two profiles.

  /** Lines 256-263: the call counts as a success when it exited 0 and its
      output parsed to a dict (`.get` on anything else raises and is caught). */
  predicate CallSucceeded(response: CallResponse)
  {
    response.Completed? && response.returnCode == 0 && response.output.Returned? && response.output.value.JObj?
  }

  /** `success_count` after trying each profile of `profiles`. */
  function SuccessCount(profiles: seq<string>, call: string -> CallResponse): (n: nat)
    ensures n <= |profiles|
  {
    if profiles == [] then 0
    else SuccessCount(profiles[..|profiles| - 1], call) + (if CallSucceeded(call(profiles[|profiles| - 1])) then 1 else 0)
  }

  /** The count reaches the number of profiles exactly when every call succeeded. */
  lemma {:induction false} SuccessCountFull(profiles: seq<string>, call: string -> CallResponse)
    ensures SuccessCount(profiles, call) == |profiles| <==> forall k :: 0 <= k < |profiles| ==> CallSucceeded(call(profiles[k]))
  {
    if profiles != [] {
      var front := profiles[..|profiles| - 1];
      SuccessCountFull(front, call);
      assert forall k :: 0 <= k < |front| ==> front[k] == profiles[k];
    }
  }

  /** Fewer than two profiles (or no config file) warns; otherwise both
      profiles are tried and the check passes only if both calls succeeded. */
  function CallerIdentityVerdict(config: Option<seq<string>>, call: string -> CallResponse): (v: Verdict)
    ensures v == Warned <==> config.None? || |ProfileNames(config.value)| < 2
    ensures v == Fail <==> config.Some? && |ProfileNames(config.value)| >= 2 && SuccessCount(ProfileNames(config.value)[..2], call) < 2
  {
    if config.None? then Warned
    else
      var profiles := ProfileNames(config.value);
      if |profiles| < 2 then Warned
      else if SuccessCount(profiles[..2], call) == 2 then Pass
      else Fail
  }

  /** With two profiles, the check passes exactly when the calls for both succeed. */
  lemma CallerIdentityNeedsBoth(config: seq<string>, call: string -> CallResponse)
    requires |ProfileNames(config)| >= 2
    ensures var profiles := ProfileNames(config);
      CallerIdentityVerdict(Some(config), call) == Pass <==>
        CallSucceeded(call(profiles[0])) && CallSucceeded(call(profiles[1]))
  {
    var profiles := ProfileNames(config);
    SuccessCountFull(profiles[..2], call);
    assert profiles[..2][0] == profiles[0] && profiles[..2][1] == profiles[1];
  }

  /** `test_caller_identity_for_profiles(runner)`. `attempted` lists the
      profiles whose identity was requested: a failed call does not stop the loop. */
  method CheckCallerIdentity(runner: TestRunner, config: Option<seq<string>>, call: string -> CallResponse)
    returns (raised: bool, ghost attempted: seq<string>)
    modifies runner
    ensures raised <==> CallerIdentityVerdict(config, call) == Fail
    ensures runner.Counters() == Warnings(old(runner.Counters()), CallerIdentityVerdict(config, call))
    ensures config.Some? && |ProfileNames(config.value)| >= 2 ==> attempted == ProfileNames(config.value)[..2]
  {
    attempted := [];
    if config.None? {
      runner.Warn();
      return false, attempted;
    }
    var profiles := ExtractProfiles(config.value);
    if |profiles| < 2 {
      runner.Warn();
      return false, attempted;
    }
    var firstTwo := profiles[..2];
    var successCount := 0;
    for i := 0 to |firstTwo|
      invariant successCount == SuccessCount(firstTwo[..i], call)
      invariant attempted == firstTwo[..i]
    {
      var profile := firstTwo[i];
      if CallSucceeded(call(profile)) {
        successCount := successCount + 1;
      }
      attempted := attempted + [profile];
      assert firstTwo[..i + 1][..i] == firstTwo[..i];
    }
    assert firstTwo[..|firstTwo|] == firstTwo;
    raised := successCount != 2;
  }
}
