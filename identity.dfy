/** Interpreting the parsed identity document `/app/output/profiles_identity.json`:
    how many profiles it lists (tests/test_aws_sso.py:137-146), which account
    and role it gives a profile (`get_account_role`, lines 179-203), and the
    account-role pair comparison (lines 208-220). */
module IdentityDocument {
  import opened PyText
  import opened PyJson

  /** `len(data)`: a list counts its items, a dict its keys; any other value
      raises the assertion at line 143. */
  function ProfileCount(data: JValue): (r: Outcome<nat>)
    ensures r.Returned? <==> data.JArr? || data.JObj?
    ensures data.JArr? ==> r == Returned(|data.items|)
    ensures data.JObj? && DistinctKeys(data.members) ==> r == Returned(|Keys(data.members)|)
  {
    match data
    case JArr(items) => Returned(|items|)
    case JObj(members) => DistinctKeysCount(members); Returned(|members|)
    case _ => Raised
  }

  /** `v.get('ProfileName') == name` for a dict `v`. */
  predicate Names(v: JValue, name: string)
  {
    v.JObj? && Get(v.members, "ProfileName") == JStr(name)
  }

  /** Every item before position `i` is a dict that does not name the profile. */
  predicate NoneNamedBefore(items: seq<JValue>, name: string, i: nat)
    requires i <= |items|
  {
    forall j :: 0 <= j < i ==> items[j].JObj? && !Names(items[j], name)
  }

  /** `next((item for item in items if item.get('ProfileName') == name), None)`:
      the first item that names the profile, None when none does; reaching an
      item that is not a dict raises, because `.get` is not defined on it. */
  function FirstListMatch(items: seq<JValue>, name: string): (r: Outcome<JValue>)
    ensures r.Raised? <==> exists i :: 0 <= i < |items| && !items[i].JObj? && NoneNamedBefore(items, name, i)
    ensures r == Returned(JNull) <==> NoneNamedBefore(items, name, |items|)
    ensures r.Returned? && r.value != JNull ==>
      exists i :: 0 <= i < |items| && items[i] == r.value && Names(items[i], name) && NoneNamedBefore(items, name, i)
  {
    if items == [] then Returned(JNull)
    else if !items[0].JObj? then
      assert NoneNamedBefore(items, name, 0);
      Raised
    else if Names(items[0], name) then
      assert NoneNamedBefore(items, name, 0);
      Returned(items[0])
    else
      var rest := items[1..];
      var r := FirstListMatch(rest, name);
      assert forall i :: 0 < i <= |items| ==> (NoneNamedBefore(items, name, i) <==> NoneNamedBefore(rest, name, i - 1)) by {
        forall i | 0 < i <= |items|
          ensures NoneNamedBefore(items, name, i) <==> NoneNamedBefore(rest, name, i - 1)
        {
          assert forall j :: 0 < j < i ==> items[j] == rest[j - 1];
        }
      }
      assert forall i :: 0 < i < |items| ==> items[i] == rest[i - 1];
      assert r.Raised? ==> exists i :: 0 <= i < |items| && !items[i].JObj? && NoneNamedBefore(items, name, i) by {
        if r.Raised? {
          var i :| 0 <= i < |rest| && !rest[i].JObj? && NoneNamedBefore(rest, name, i);
          assert !items[i + 1].JObj? && NoneNamedBefore(items, name, i + 1);
        }
      }
      assert r.Returned? && r.value != JNull ==>
        exists i :: 0 <= i < |items| && items[i] == r.value && Names(items[i], name) && NoneNamedBefore(items, name, i) by {
        if r.Returned? && r.value != JNull {
          var i :| 0 <= i < |rest| && rest[i] == r.value && Names(rest[i], name) && NoneNamedBefore(rest, name, i);
          assert items[i + 1] == r.value && NoneNamedBefore(items, name, i + 1);
        }
      }
      r
  }

  /** `next((v for v in data.values() if isinstance(v, dict) and v.get('ProfileName') == name), None)`:
      the first value, in key order, that names the profile; None when none does. */
  function FirstValueMatch(members: seq<(string, JValue)>, name: string): (r: JValue)
    ensures r == JNull <==> forall i :: 0 <= i < |members| ==> !Names(members[i].1, name)
    ensures r != JNull ==>
      exists i :: 0 <= i < |members| && members[i].1 == r && Names(r, name)
               && forall j :: 0 <= j < i ==> !Names(members[j].1, name)
  {
    if members == [] then JNull
    else if Names(members[0].1, name) then members[0].1
    else
      var rest := members[1..];
      var r := FirstValueMatch(rest, name);
      assert forall i :: 0 < i < |members| ==> members[i] == rest[i - 1];
      assert r != JNull ==>
        exists i :: 0 <= i < |members| && members[i].1 == r && Names(r, name)
                 && forall j :: 0 <= j < i ==> !Names(members[j].1, name) by {
        if r != JNull {
          var i :| 0 <= i < |rest| && rest[i].1 == r && Names(r, name)
                   && forall j :: 0 <= j < i ==> !Names(rest[j].1, name);
          assert members[i + 1].1 == r;
          assert forall j :: 0 <= j < i + 1 ==> !Names(members[j].1, name) by {
            forall j | 0 <= j < i + 1 ensures !Names(members[j].1, name) {
              if j > 0 { assert members[j] == rest[j - 1]; }
            }
          }
        }
      }
      r
  }

  /** Lines 181-197: the record `profile_info` found for a profile. A dict is
      looked up by key first and searched by `ProfileName` only when the key is
      absent; a list is searched; any other document finds nothing. */
  function FindRecord(name: string, data: JValue): Outcome<JValue>
  {
    match data
    case JObj(members) =>
      if name in Keys(members) then Returned(Get(members, name))
      else Returned(FirstValueMatch(members, name))
    case JArr(items) => FirstListMatch(items, name)
    case _ => Returned(JNull)
  }

  /** What the record search finds: only a list search can raise; a document
      that is neither a dict nor a list finds nothing; a dict's own key wins;
      and a record found by searching names the profile. */
  lemma FindRecordFinds(name: string, data: JValue)
    ensures var r := FindRecord(name, data);
      && (r.Raised? ==> data.JArr?)
      && (!data.JArr? && !data.JObj? ==> r == Returned(JNull))
      && (data.JObj? && name in Keys(data.members) ==> r == Returned(Get(data.members, name)))
      && (r.Returned? && r.value != JNull && !(data.JObj? && name in Keys(data.members)) ==> Names(r.value, name))
  {
  }

  /** The account and role a profile resolves to; JNull stands for Python's None. */
  datatype AccountRole = AccountRole(account: JValue, role: JValue)

  /** Lines 199-203: a falsy record gives (None, None); otherwise `Account`
      falls back to `AccountId` and `RoleName` to `Role` when absent or falsy.
      Calling `.get` on a record that is not a dict raises. */
  function RecordFields(info: JValue): (r: Outcome<AccountRole>)
    ensures !Truthy(info) ==> r == Returned(AccountRole(JNull, JNull))
    ensures r.Raised? <==> Truthy(info) && !info.JObj?
    ensures r.Returned? && Truthy(info) ==>
      var account, accountId := Get(info.members, "Account"), Get(info.members, "AccountId");
      var roleName, role := Get(info.members, "RoleName"), Get(info.members, "Role");
      && (Truthy(r.value.account) <==> Truthy(account) || Truthy(accountId))
      && r.value.account == (if Truthy(account) then account else accountId)
      && (Truthy(r.value.role) <==> Truthy(roleName) || Truthy(role))
      && r.value.role == (if Truthy(roleName) then roleName else role)
  {
    if !Truthy(info) then Returned(AccountRole(JNull, JNull))
    else if !info.JObj? then Raised
    else
      Returned(AccountRole(Or(Get(info.members, "Account"), Get(info.members, "AccountId")),
                           Or(Get(info.members, "RoleName"), Get(info.members, "Role"))))
  }

  /** `get_account_role(name, data)`: only a list or a dict can raise or
      resolve a profile. */
  function GetAccountRole(name: string, data: JValue): (r: Outcome<AccountRole>)
    ensures !data.JArr? && !data.JObj? ==> r == Returned(AccountRole(JNull, JNull))
    ensures r.Raised? ==> data.JArr? || data.JObj?
  {
    match FindRecord(name, data)
    case Raised => Raised
    case Returned(info) => RecordFields(info)
  }

  /** In a dict document, the entry keyed by the profile name decides, whatever
      other entries come before it, including entries whose `ProfileName` is that name. */
  lemma DirectKeyWins(name: string, others: seq<(string, JValue)>, members: seq<(string, JValue)>)
    requires name in Keys(members) && name !in Keys(others)
    ensures GetAccountRole(name, JObj(others + members)) == RecordFields(Get(members, name))
  {
    GetSkipsOtherKeys(others, members, name);
  }

  /** The search stops at the first item that names the profile. */
  lemma {:induction false} FirstListMatchStops(name: string, before: seq<JValue>, record: JValue, after: seq<JValue>)
    requires forall j :: 0 <= j < |before| ==> before[j].JObj? && !Names(before[j], name)
    requires Names(record, name)
    ensures FirstListMatch(before + [record] + after, name) == Returned(record)
  {
    var items := before + [record] + after;
    if before == [] {
      assert items[0] == record;
    } else {
      assert items[0] == before[0];
      assert items[1..] == before[1..] + [record] + after;
      FirstListMatchStops(name, before[1..], record, after);
    }
  }

  /** In a list document, the first item naming the profile decides; the items
      after it, even non-dicts or further matches, are never looked at. */
  lemma FirstListMatchWins(name: string, before: seq<JValue>, record: JValue, after: seq<JValue>)
    requires forall j :: 0 <= j < |before| ==> before[j].JObj? && !Names(before[j], name)
    requires Names(record, name)
    ensures GetAccountRole(name, JArr(before + [record] + after)) == RecordFields(record)
    ensures GetAccountRole(name, JArr(before + [record] + after)).Returned?
  {
    FirstListMatchStops(name, before, record, after);
    assert Get(record.members, "ProfileName") == JStr(name);
    assert Truthy(record);
  }

  /** In a dict document without the profile's key, the first value (in dict
      order) naming the profile decides; the values after it are never looked at. */
  lemma FirstValueMatchWins(name: string, before: seq<(string, JValue)>, key: string, record: JValue,
                            after: seq<(string, JValue)>)
    requires name !in Keys(before + [(key, record)] + after)
    requires forall j :: 0 <= j < |before| ==> !Names(before[j].1, name)
    requires Names(record, name)
    ensures GetAccountRole(name, JObj(before + [(key, record)] + after)) == RecordFields(record)
    ensures GetAccountRole(name, JObj(before + [(key, record)] + after)).Returned?
  {
    var members := before + [(key, record)] + after;
    assert members[|before|].1 == record;
    var r := FirstValueMatch(members, name);
    var i :| 0 <= i < |members| && members[i].1 == r && Names(r, name)
             && forall j :: 0 <= j < i ==> !Names(members[j].1, name);
    assert i == |before|;
    assert Get(record.members, "ProfileName") == JStr(name);
    assert Truthy(record);
  }

  /** A document that is neither a dict nor a list, a list of dicts none of
      which names the profile, and a dict with no such key and no value naming
      the profile give (None, None): the profile is unresolved. */
  lemma NoRecordUnresolved(name: string, data: JValue)
    requires || (!data.JArr? && !data.JObj?)
             || (data.JArr? && NoneNamedBefore(data.items, name, |data.items|))
             || (data.JObj? && name !in Keys(data.members)
                 && forall i :: 0 <= i < |data.members| ==> !Names(data.members[i].1, name))
    ensures GetAccountRole(name, data) == Returned(AccountRole(JNull, JNull))
  {
  }

  /** When `get_account_role` raises: a list holds a non-dict before any item
      naming the profile, or a dict keys the profile to a truthy non-dict. */
  lemma {:induction false} WhenLookupRaises(name: string, data: JValue)
    ensures GetAccountRole(name, data).Raised? <==>
      || (data.JArr? && exists i :: 0 <= i < |data.items| && !data.items[i].JObj? && NoneNamedBefore(data.items, name, i))
      || (data.JObj? && name in Keys(data.members) && Truthy(Get(data.members, name)) && !Get(data.members, name).JObj?)
  {
    match data
    case JArr(items) =>
      var r := FirstListMatch(items, name);
      if r.Returned? && r.value != JNull {
        var i :| 0 <= i < |items| && items[i] == r.value && Names(items[i], name) && NoneNamedBefore(items, name, i);
        assert Get(r.value.members, "ProfileName") == JStr(name);
        assert Truthy(r.value);
      }
    case JObj(members) =>
      if name !in Keys(members) {
        var r := FirstValueMatch(members, name);
        if r != JNull {
          assert Names(r, name);
          assert Get(r.members, "ProfileName") == JStr(name);
          assert Truthy(r);
        }
      }
    case _ =>
  }

  /** A profile is resolved when both its account and its role are truthy. */
  predicate Resolved(ar: AccountRole)
  {
    Truthy(ar.account) && Truthy(ar.role)
  }

  /** `f"{account}:{role}"`. When the account text holds no colon, it is
      what comes before the first colon. */
  function PairText(ar: AccountRole): (t: string)
    ensures ':' !in Str(ar.account) ==> BeforeColon(t) == Str(ar.account)
  {
    var t := Str(ar.account) + ":" + Str(ar.role);
    if ':' in Str(ar.account) then t else BeforeColonOfPair(Str(ar.account), Str(ar.role)); t
  }

  /** What lines 208-220 decide for two looked-up profiles. */
  datatype PairComparison = Distinct | Shared | Unresolved

  /** Lines 208-220: unresolved unless all four fields are truthy; then the
      two pair strings are compared. */
  function ComparePairs(first: AccountRole, second: AccountRole): (c: PairComparison)
    ensures c == Unresolved <==> !Resolved(first) || !Resolved(second)
    ensures c == Shared <==> Resolved(first) && Resolved(second) && PairText(first) == PairText(second)
  {
    if Resolved(first) && Resolved(second) then
      if PairText(first) == PairText(second) then Shared else Distinct
    else Unresolved
  }

  /** The comparison does not depend on which profile comes first. */
  lemma ComparePairsSymmetric(first: AccountRole, second: AccountRole)
    ensures ComparePairs(first, second) == ComparePairs(second, first)
  {
  }

  /** The text before the first colon. */
  function BeforeColon(t: string): (r: string)
    ensures ':' !in r
  {
    if t == [] || t[0] == ':' then [] else [t[0]] + BeforeColon(t[1..])
  }

  /** A colon-free account is recovered from its pair string. */
  lemma {:induction false} BeforeColonOfPair(account: string, role: string)
    requires ':' !in account
    ensures BeforeColon(account + ":" + role) == account
  {
    if account != [] {
      assert (account + ":" + role)[0] == account[0];
      assert (account + ":" + role)[1..] == account[1..] + ":" + role;
      BeforeColonOfPair(account[1..], role);
    }
  }

  /** When neither account text holds a colon, the pair strings are equal exactly
      when the accounts print the same and the roles print the same. */
  lemma PairTextInjective(first: AccountRole, second: AccountRole)
    requires ':' !in Str(first.account) && ':' !in Str(second.account)
    ensures PairText(first) == PairText(second) <==>
      Str(first.account) == Str(second.account) && Str(first.role) == Str(second.role)
  {
    var a1, a2 := Str(first.account), Str(second.account);
    var p1, p2 := PairText(first), PairText(second);
    BeforeColonOfPair(a1, Str(first.role));
    BeforeColonOfPair(a2, Str(second.role));
    if p1 == p2 {
      assert a1 == a2;
      assert Str(first.role) == p1[|a1| + 1..] == p2[|a2| + 1..] == Str(second.role);
    }
  }

  /** A number account prints without a colon, so two number accounts with
      roles give equal pair strings only when the numbers and role texts agree. */
  lemma NumberAccountsCompareExactly(first: AccountRole, second: AccountRole)
    requires first.account.JNum? && second.account.JNum?
    ensures PairText(first) == PairText(second) <==>
      first.account == second.account && Str(first.role) == Str(second.role)
  {
    PairTextInjective(first, second);
    if Str(first.account) == Str(second.account) {
      IntTextInjective(first.account.n, second.account.n);
    }
  }

  /** The pair string does not separate accounts that contain a colon:
      ("1:2", "R") and ("1", "2:R") are two different account-role pairs that
      lines 209-212 report as the same. */
  lemma ColonAccountsCollide()
    ensures var first, second := AccountRole(JStr("1:2"), JStr("R")), AccountRole(JStr("1"), JStr("2:R"));
      first != second && ComparePairs(first, second) == Shared
  {
    var first, second := AccountRole(JStr("1:2"), JStr("R")), AccountRole(JStr("1"), JStr("2:R"));
    assert PairText(first) == "1:2:R" == PairText(second);
  }
}
