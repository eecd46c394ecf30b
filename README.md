# AWS SSO environment checker — Dafny model

`tests/test_aws_sso.py` is a verification script. It checks that a machine is set up
for AWS single sign-on through `aws-sso-util`. It runs six checks through one
`TestRunner`, which counts passes, failures and warnings. It then exits with status 0
when nothing failed and 1 otherwise. The six checks are:

1. the helper tool answers `--version`;
2. an SSO or CLI credential cache exists, and shows how login happened;
3. one of three marker files exists, and the first one that exists can be read;
4. `/app/output/profiles_identity.json` is a JSON list or object;
5. the first two profiles of `~/.aws/config` resolve to different `account:role` pairs;
6. `aws sts get-caller-identity` succeeds for both of those profiles.

The model keeps the logic under the plumbing. It does not model the subprocesses or
the filesystem. Their results are the fields of `Suite.Environment`: booleans, a file
count, path predicates, an already-parsed JSON document, the config file's lines, and
a function from profile name to command outcome.

The modules are:

- `PyText` (`pytext.dfy`) holds the Python string behaviour the script relies on:
  `str.strip()`, `startswith`, `replace` and `str(int)`.
- `PyJson` (`pyjson.dfy`) holds parsed JSON values:
  - Python truthiness;
  - `dict.get`, where a missing key and JSON `null` are both `None`;
  - `or`;
  - `str()` of a value.
- `ConfigProfiles` (`profiles.dfy`) extracts profile names from config lines. It is a
  function plus the loop that computes it.
- `IdentityDocument` (`identity.dfy`) interprets the identity document:
  - the profile count;
  - `get_account_role`, where an operation that raises in Python is an `Outcome.Raised`;
  - the comparison of `account:role` pairs.
- `Runner` (`runner.dfy`) is the `TestRunner` class and the tally of verdicts.
- `Checks` (`checks.dfy`) gives each check its verdict function (`Pass`, `Warned`
  or `Fail`). The checks that loop (3, 5 and 6) or warn (2, 5 and 6) are also methods,
  and those that warn take the runner.
- `Suite` (`suite.dfy`) is `main`: the six `runner.test` calls, the summary and the
  exit status.

Three behaviours of the script are easy to misread, and the model follows the code in
each:

- The suite is not fail-fast. `TestRunner.test` catches every exception (lines 37-46),
  so all six checks run whatever the earlier ones did. `Suite.RunSuite` and
  `Suite.MissingHelperStillRunsAll` state this.
- The caller-identity check calls the command for both profiles even when the first
  call fails (lines 249-272).
- An identity document that parses but is neither a list nor an object fails check 4
  (line 143). It does not fall through with a count.

## Model

| member | source | states |
|---|---|---|
| PyText.StripIsSlice | tests/test_aws_sso.py:159 | `line.strip()` is a contiguous slice of the line. Only whitespace is cut on either side, and the result neither starts nor ends with whitespace |
| PyText.StartsWithIsPrefix | tests/test_aws_sso.py:160 | `startswith` holds exactly when the header is a prefix of the line |
| PyText.RemoveAll | tests/test_aws_sso.py:161 | `replace(pat, '')` never lengthens the text and leaves it unchanged when `pat` does not occur. Removing a one-character pattern leaves no copy of that character |
| PyText.RemoveTrailingChar | tests/test_aws_sso.py:161 | removing `]` from `t + "]"` gives back `t` when `t` has no `]` |
| PyText.DigitsRoundTrip | tests/test_aws_sso.py:209-210 | the decimal digits written for a natural number read back as that number |
| PyText.IntTextInjective | tests/test_aws_sso.py:209-210 | distinct integers format to distinct `str()` texts |
| PyJson.Get | tests/test_aws_sso.py:182-188 | `dict.get(key)` is `None` for a missing key. Otherwise it is the value of the first entry with that key |
| PyJson.GetSkipsOtherKeys | tests/test_aws_sso.py:182-183 | entries with other keys in front do not change a lookup |
| PyJson.DistinctKeysCount | tests/test_aws_sso.py:140-141 | with distinct keys, an object's key count is its number of entries |
| PyJson.Truthy | tests/test_aws_sso.py:199-208 | Python truthiness of a JSON value: `None`, `False`, `0`, `""`, `[]` and `{}` are falsy. `IdentityDocument.RecordFields`, `PyJson.Or` and `IdentityDocument.ComparePairs` state their results in terms of it |
| PyJson.Or | tests/test_aws_sso.py:200-201 | `x or y` is `x` when `x` is truthy and `y` otherwise, so it is truthy exactly when one of them is |
| PyJson.Str | tests/test_aws_sso.py:209-210 | `str()` of a string is the string itself, and of an integer is its decimal text |
| ConfigProfiles.ProfileNames | tests/test_aws_sso.py:156-162 | the names the extraction loop collects. `ConfigProfiles.ExtractProfiles` is proved to compute it, and the `ProfileNames*`, `NamesHaveNoBracket` and `OtherLinesIgnored` lemmas state its properties |
| ConfigProfiles.ProfileName | tests/test_aws_sso.py:161 | the extracted name holds no `]` and is no longer than the stripped line |
| ConfigProfiles.ExtractProfiles | tests/test_aws_sso.py:156-162 | the loop appends exactly the names of the profile lines, in file order |
| ConfigProfiles.ProfileNamesBound | tests/test_aws_sso.py:156-162 | there are never more profile names than lines |
| ConfigProfiles.ProfileNamesOfLine | tests/test_aws_sso.py:159-162 | a single line gives its name when stripped it starts with `[profile `, and nothing otherwise |
| ConfigProfiles.NamesHaveNoBracket | tests/test_aws_sso.py:161 | no extracted name contains `]` |
| ConfigProfiles.ProfileNamesAppend | tests/test_aws_sso.py:158-162 | the names of two stretches of lines are those of the first followed by those of the second |
| ConfigProfiles.OtherLinesIgnored | tests/test_aws_sso.py:158-162 | inserting lines that are not profile headers (such as `[default]`) anywhere changes nothing |
| ConfigProfiles.HeaderRoundTrip | tests/test_aws_sso.py:159-161 | the line `[profile NAME]` is a profile line and yields NAME, for every NAME with no `]` and no `[profile ` |
| IdentityDocument.ProfileCount | tests/test_aws_sso.py:138-143 | a list gives its length and an object its key count. Any other value raises |
| IdentityDocument.FirstValueMatch | tests/test_aws_sso.py:186-190 | the generator over `data.values()` yields the first object value whose `ProfileName` matches, or `None` when there is none |
| IdentityDocument.FirstListMatch | tests/test_aws_sso.py:192-195 | the generator over a list yields the first element whose `ProfileName` matches. It raises when a non-object comes before any match, and gives `None` when nothing matches |
| IdentityDocument.FindRecord | tests/test_aws_sso.py:181-197 | the record `profile_info` found for a profile. `IdentityDocument.FindRecordFinds` states what it finds |
| IdentityDocument.FindRecordFinds | tests/test_aws_sso.py:181-197 | only a list search can raise. A document that is neither a dict nor a list finds nothing. A dict's own key wins. A record found by searching names the profile |
| IdentityDocument.RecordFields | tests/test_aws_sso.py:199-203 | a falsy record gives `(None, None)`. A truthy non-object raises. Otherwise `Account` falls back to `AccountId` and `RoleName` to `Role`, by truthiness |
| IdentityDocument.GetAccountRole | tests/test_aws_sso.py:179-203 | a document that is neither a list nor a dict gives `(None, None)` and never raises. `DirectKeyWins`, `FirstValueMatchWins`, `FirstListMatchWins`, `NoRecordUnresolved` and `WhenLookupRaises` give the rest of its contract |
| IdentityDocument.DirectKeyWins | tests/test_aws_sso.py:181-190 | in an object, a key equal to the profile name wins over any `ProfileName` search |
| IdentityDocument.FirstValueMatchWins | tests/test_aws_sso.py:184-190 | in an object without the profile's key, the first value in dict order whose `ProfileName` names the profile decides the account and role |
| IdentityDocument.FirstListMatchWins | tests/test_aws_sso.py:191-202 | in a list, the first matching record decides the account and role |
| IdentityDocument.NoRecordUnresolved | tests/test_aws_sso.py:181-203 | the lookup gives `(None, None)` in three cases: a document that is neither a list nor a dict; a list of dicts none of which names the profile; and a dict without that key none of whose values names the profile |
| IdentityDocument.WhenLookupRaises | tests/test_aws_sso.py:181-201 | exactly when `get_account_role` raises: a non-object list element before any match, or a truthy non-object under the direct key |
| IdentityDocument.PairText | tests/test_aws_sso.py:209-210 | the `f"{account}:{role}"` string. When the account text holds no colon, the text before the first colon is the account |
| IdentityDocument.ComparePairs | tests/test_aws_sso.py:208-220 | the comparison is unresolved exactly when one of the four fields is falsy. The pairs are shared exactly when both are resolved and the `account:role` texts are equal |
| IdentityDocument.ComparePairsSymmetric | tests/test_aws_sso.py:208-212 | swapping the two profiles does not change the comparison |
| IdentityDocument.PairTextInjective | tests/test_aws_sso.py:209-212 | when neither account text holds `:`, equal pair texts mean equal accounts and equal roles, and conversely |
| IdentityDocument.NumberAccountsCompareExactly | tests/test_aws_sso.py:209-212 | with numeric accounts, the pairs collide exactly when the accounts are equal and the roles print alike |
| IdentityDocument.ColonAccountsCollide | tests/test_aws_sso.py:209-212 | two different assignments whose account holds `:` can give the same pair text |
| Runner.Record | tests/test_aws_sso.py:32-50 | the counters after one more check. `Runner.RecordOneMore` states its effect |
| Runner.RecordOneMore | tests/test_aws_sso.py:32-50 | recording a check moves exactly one of `passed` and `failed`, and moves `failed` exactly when the check failed. It adds a warning exactly when the check warned, and a warning only comes with a pass |
| Runner.Tally | tests/test_aws_sso.py:27-51 | after n checks, `passed + failed == n`, and warnings never exceed passes |
| Runner.TallyNoFailure | tests/test_aws_sso.py:53-62 | the failure counter is zero exactly when no check failed |
| Runner.TallyAppend | tests/test_aws_sso.py:27-46 | running one more check records its verdict on top of the earlier counters |
| Runner.FailsCount | tests/test_aws_sso.py:37-46 | the failure counter equals the number of failing checks |
| Runner.TestRunner.constructor | tests/test_aws_sso.py:22-25 | all three counters start at zero |
| Runner.TestRunner.Test | tests/test_aws_sso.py:27-46 | exactly one of `passed` and `failed` goes up, by one, and `warnings` is unchanged. The result is true exactly when nothing was raised |
| Runner.TestRunner.Warn | tests/test_aws_sso.py:48-51 | only `warnings` goes up, by one |
| Runner.TestRunner.Summary | tests/test_aws_sso.py:53-62 | success exactly when `failed == 0`, whatever the warnings |
| Checks.HelperInstalledVerdict | tests/test_aws_sso.py:65-79 | the helper check passes exactly when `--version` ran and exited 0. It never warns |
| Checks.AuthMethodVerdict | tests/test_aws_sso.py:82-100 | fails exactly when neither cache exists. Passes without a warning exactly when the marker file exists or the SSO cache has a `*.json`. Otherwise warns once |
| Checks.AuthMethodMonotone | tests/test_aws_sso.py:89-100 | more evidence of a login never makes the verdict worse |
| Checks.CheckAuthenticationMethod | tests/test_aws_sso.py:82-100 | the method raises exactly on the failing verdict, and it warns exactly on the warning verdict |
| Checks.FirstExisting | tests/test_aws_sso.py:111-118 | the search stops at the first existing path, and finds none only when no path exists |
| Checks.MarkerFileVerdict | tests/test_aws_sso.py:103-120 | check 3 passes exactly when the first existing path can be read. It never warns |
| Checks.CheckMarkerFile | tests/test_aws_sso.py:111-120 | the loop with `found` and `break` raises exactly when the verdict is a failure |
| Checks.IdentityDocumentVerdict | tests/test_aws_sso.py:123-146 | check 4 passes exactly when the document parses as a list or an object. A count of 0 still passes |
| Checks.DistinctPairsVerdict | tests/test_aws_sso.py:149-220 | a missing config or fewer than two profiles fails. A missing identity document only warns. Unparsable JSON fails |
| Checks.PairsVerdict | tests/test_aws_sso.py:205-220 | a lookup that raises fails the check. Otherwise both lookups returned, and the check warns exactly when the comparison is unresolved |
| Checks.LookupRaisesFails | tests/test_aws_sso.py:205-220 | check 5 fails when `get_account_role` raises for either of the first two profiles |
| Checks.NonDictItemFails | tests/test_aws_sso.py:191-195 | a list document with a non-dict item before any record of the first profile fails check 5, because `.get` raises on that item |
| Checks.PairsVerdictSymmetric | tests/test_aws_sso.py:205-220 | swapping the two profiles does not change the verdict of check 5 |
| Checks.TwoHeaders | tests/test_aws_sso.py:156-162 | a config with headers for `a` and `b` yields the names `[a, b]` |
| Checks.AssignmentFields | tests/test_aws_sso.py:199-202 | a record with non-empty `Account` and `RoleName` resolves to those two strings |
| Checks.KeyedDocumentVerdict | tests/test_aws_sso.py:179-212 | with an object keyed by profile name, check 5 fails exactly when the two `account:role` texts are equal, and passes otherwise |
| Checks.KeyedLookup | tests/test_aws_sso.py:181-183 | a direct key lookup reads the record stored under that key |
| Checks.MissingRecordWarns | tests/test_aws_sso.py:191-220 | a list that holds no record for the second profile leads to a warning, not a failure |
| Checks.ResolvedPairsVerdict | tests/test_aws_sso.py:208-212 | when both profiles resolve, check 5 fails exactly when the pair texts are equal |
| Checks.UnresolvedOnlyWarns | tests/test_aws_sso.py:208-220 | when either profile is unresolved, check 5 warns and does not fail |
| Checks.CheckDistinctAccountRolePairs | tests/test_aws_sso.py:149-220 | the method raises exactly on the failing verdict, and it warns exactly on the warning verdict |
| Checks.CallSucceeded | tests/test_aws_sso.py:256-263 | a call counts as a success when it exited 0 and its output parsed to a dict. `Checks.SuccessCountFull` and `Checks.CallerIdentityNeedsBoth` state the check in terms of it |
| Checks.SuccessCount | tests/test_aws_sso.py:245-266 | the success counter never exceeds the number of profiles tried |
| Checks.SuccessCountFull | tests/test_aws_sso.py:245-274 | every call succeeded exactly when the counter reaches the number of profiles |
| Checks.CallerIdentityVerdict | tests/test_aws_sso.py:223-274 | warns exactly when the config is missing or has fewer than two profiles. Fails exactly when fewer than two of the first two calls succeed |
| Checks.CallerIdentityNeedsBoth | tests/test_aws_sso.py:245-274 | with two profiles, check 6 passes exactly when both calls succeed |
| Checks.CheckCallerIdentity | tests/test_aws_sso.py:223-275 | the loop attempts both profiles, raises exactly on the failing verdict, and warns exactly on the warning verdict |
| Suite.SuiteVerdicts | tests/test_aws_sso.py:287-292 | `main` runs exactly six checks |
| Suite.RunSuite | tests/test_aws_sso.py:278-303 | after `main` the counters are the tally of all six verdicts, and the exit status is 1 exactly when some check failed |
| Suite.TestHelperInstalled | tests/test_aws_sso.py:287 | `runner.test` of check 1 records its verdict |
| Suite.TestAuthenticationMethod | tests/test_aws_sso.py:288 | `runner.test` of check 2 records its verdict, including its warning |
| Suite.TestMarkerFile | tests/test_aws_sso.py:289 | `runner.test` of check 3 records its verdict |
| Suite.TestIdentityDocument | tests/test_aws_sso.py:290 | `runner.test` of check 4 records its verdict |
| Suite.TestDistinctPairs | tests/test_aws_sso.py:291 | `runner.test` of check 5 records its verdict, including its warning |
| Suite.TestCallerIdentity | tests/test_aws_sso.py:292 | `runner.test` of check 6 records its verdict, including its warning |
| Suite.TallySix | tests/test_aws_sso.py:287-295 | recording six verdicts in turn from zero gives their tally |
| Suite.MissingHelperStillRunsAll | tests/test_aws_sso.py:287-303 | a missing helper fails check 1, yet all six checks are counted and the others keep their own verdicts |

## Left out

- Subprocesses (`aws-sso-util --version`, `aws sts get-caller-identity`) and their timeouts: each call is a `CallResponse` parameter (completed with a return code, or raised).
- Filesystem access (`Path.home()`, `exists`, `glob`, `read_text`, `open`): each is a boolean, a count or a path predicate in `Suite.Environment`.
- The JSON parser: documents arrive already parsed (`Document` is parsed, missing or malformed).
- JSON floating-point numbers: only integers are modelled.
- Duplicate keys in a JSON object: `json.load` keeps the last one, while `PyJson.Get` returns the first. The lemmas that count keys assume distinct keys.
- PyJson.Str: `str()` of a list, an object, a boolean or `null` is a simplified rendering. It uses no quoting or escaping rules and only matters for the pair text of such values.
- Printing, banners and warning messages, apart from the `account:role` pair text.
- `sys.exit`: only the exit status value is modelled.
- Exception types and messages: a check either raised or did not.
- The `*.json` files of the SSO cache (line 95): only their number is a parameter, because the check only asks whether there are any.
- The profile count of check 4 is only printed (line 145). `IdentityDocument.ProfileCount` models it, but no verdict depends on its value.
- The account and ARN that check 6 prints (lines 258-262). A successful call only needs exit status 0 and output that parses to a JSON object.
- Check 6's parsing of the config (lines 232-238) is the same extraction as check 5's, so `ConfigProfiles.ProfileNames` serves both.
- Config files that exist but cannot be opened or decoded (lines 157 and 233): the config is either absent or its lines. In the source such a file raises, so checks 5 and 6 both fail. In the model only the absent case exists, and there check 6 warns.
