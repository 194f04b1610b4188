/** The eSIM profile lists: counted lists of records that each hold a counted list of rules.
    Both readers give up at the first failed read and at a count above a thousand. */
module EsimProfiles {
  import opened Wire

  const MAX_SIZE := 1000

  datatype AccessRule = AccessRule(certificateHashHexStr: Text, packageName: Text, accessType: Word)

  function PutRule(r: AccessRule, t: Words): Words {
    Str(r.certificateHashHexStr, Str(r.packageName, Int(r.accessType, t)))
  }

  function NextRule(c: Cursor): Parsed<AccessRule> {
    var certificate := NextText(c, []);
    var package := NextText(certificate.at, []);
    var access := NextInt(package.at, 0);
    Parsed(AccessRule(certificate.value, package.value, access.value), access.at)
  }

  /** A count and the rules; a count above the limit is a failure. */
  function PutRules(rules: Vec<AccessRule>, t: Words): Words { Counted(PutRule, rules, t) }

  function NextList<T>(next: Cursor -> Parsed<T>, c: Cursor): (r: Parsed<seq<T>>)
    ensures |r.value| <= MAX_SIZE
  {
    var count := NextUint(c);
    if !count.at.ok || count.value > MAX_SIZE then Parsed([], count.at.(ok := false))
    else ListOf(next, count.value, count.at)
  }

  // ------------------------------------------------------------ EuiccProfile

  datatype OperatorId = OperatorId(mcc: Text, mnc: Text, gid1: Text, gid2: Text)

  datatype EuiccProfile = EuiccProfile(
    iccId: Text, nickName: Text, serviceProviderName: Text, profileName: Text,
    state: Word, profileClass: Word, carrierId: OperatorId, policyRules: Word,
    accessRules: Vec<AccessRule>, portIndex: Word)

  function PutProfileHead(p: EuiccProfile, t: Words): Words {
    Str(p.iccId, Str(p.nickName, Str(p.serviceProviderName, Str(p.profileName,
      Int(p.state, Int(p.profileClass,
        Str(p.carrierId.mcc, Str(p.carrierId.mnc, Str(p.carrierId.gid1, Str(p.carrierId.gid2,
          Int(p.policyRules, t)))))))))))
  }

  function PutProfile(p: EuiccProfile, t: Words): Words { PutProfileHead(p, PutRules(p.accessRules, t)) }

  /** The fields of `ReadProfileFromParcel` before the rules, on a newly made profile. */
  function NextProfileHead(c: Cursor): Parsed<EuiccProfile> {
    var iccId := NextText(c, []);
    var nickName := NextText(iccId.at, []);
    var serviceProviderName := NextText(nickName.at, []);
    var profileName := NextText(serviceProviderName.at, []);
    var state := NextInt(profileName.at, -1);
    var profileClass := NextInt(state.at, -1);
    var mcc := NextText(profileClass.at, []);
    var mnc := NextText(mcc.at, []);
    var gid1 := NextText(mnc.at, []);
    var gid2 := NextText(gid1.at, []);
    var policyRules := NextInt(gid2.at, -1);
    Parsed(EuiccProfile(iccId.value, nickName.value, serviceProviderName.value, profileName.value,
                        state.value, profileClass.value, OperatorId(mcc.value, mnc.value, gid1.value, gid2.value),
                        policyRules.value, [], 0),
           policyRules.at)
  }

  function NextProfile(c: Cursor): Parsed<EuiccProfile> {
    var head := NextProfileHead(c);
    var rules := NextList(NextRule, head.at);
    Parsed(head.value.(accessRules := rules.value), rules.at)
  }

  /** The port index is not sent. */
  function WithoutPort(p: EuiccProfile): EuiccProfile { p.(portIndex := 0) }

  predicate FewRules(p: EuiccProfile) { |p.accessRules| <= 1000 }

  // ------------------------------------------------------ DownloadableProfile

  datatype DownloadableProfile = DownloadableProfile(
    encodedActivationCode: Text, confirmationCode: Text, carrierName: Text, accessRules: Vec<AccessRule>)

  function PutDownloadable(p: DownloadableProfile, t: Words): Words {
    Str(p.encodedActivationCode, Str(p.confirmationCode, Str(p.carrierName, PutRules(p.accessRules, t))))
  }

  function NextDownloadable(c: Cursor): Parsed<DownloadableProfile> {
    var code := NextText(c, []);
    var confirmation := NextText(code.at, []);
    var carrier := NextText(confirmation.at, []);
    var rules := NextList(NextRule, carrier.at);
    Parsed(DownloadableProfile(code.value, confirmation.value, carrier.value, rules.value), rules.at)
  }

  predicate FewDownloadableRules(p: DownloadableProfile) { |p.accessRules| <= 1000 }

  // ---------------------------------------------------------------- whole results

  /** A result code and a counted list, as in both result parcels. */
  datatype Result<T> = Result(code: Word, profiles: Vec<T>)

  function PutResult<T>(put: (T, Words) -> Words, r: Result<T>, t: Words): Words {
    Int(r.code, Counted(put, r.profiles, t))
  }

  function NextResult<T>(next: Cursor -> Parsed<T>, c: Cursor): Parsed<Result<T>> {
    var code := NextInt(c, 0);
    var profiles := NextList(next, code.at);
    Parsed(Result(code.value, profiles.value), profiles.at)
  }

  // ------------------------------------------------------------------ the lemmas

  lemma RuleCodec()
    ensures ReadsBack(PutRule, NextRule, (r: AccessRule) => true, (r: AccessRule) => r)
    ensures ReadsExactly(PutRule, NextRule)
    ensures Writes(PutRule)
  {
    forall r: AccessRule, t: Words
      ensures NextRule(Cursor(PutRule(r, t), true)) == Parsed(r, Cursor(t, true))
      ensures PutRule(r, t) == PutRule(r, []) + t
    {
      RuleRoundTrip(r, t);
    }
    forall c: Cursor | NextRule(c).at.ok
      ensures c.ok && c.rest == PutRule(NextRule(c).value, NextRule(c).at.rest)
    {
      RuleExact(c);
    }
  }

  lemma RuleRoundTrip(r: AccessRule, t: Words)
    ensures NextRule(Cursor(PutRule(r, t), true)) == Parsed(r, Cursor(t, true))
    ensures PutRule(r, t) == PutRule(r, []) + t
  {
    hide NextInt, NextText, Int, Str;
    ReadFacts();
    WriteFacts();
    assert [] + t == t;
  }

  lemma RuleExact(c: Cursor)
    requires NextRule(c).at.ok
    ensures c.ok && c.rest == PutRule(NextRule(c).value, NextRule(c).at.rest)
  {
    hide NextInt, NextText, Int, Str;
    ExactFacts();
  }

  /** A counted list with the limit is accepted, and then read back whole, if and only if it
      and all its elements are within bounds. */
  lemma LimitedListRoundTrip<T(!new)>(
      put: (T, Words) -> Words, next: Cursor -> Parsed<T>, valid: T -> bool, sent: T -> T, xs: Vec<T>, t: Words)
    requires ReadsBack(put, next, valid, sent) && Rejects(put, next, valid)
    ensures var r := NextList(next, Cursor(Counted(put, xs, t), true));
            && (r.at.ok <==> |xs| <= MAX_SIZE && forall x | x in xs :: valid(x))
            && (r.at.ok ==> r == Parsed(MapSent(sent, xs), Cursor(t, true)))
  {
    assert Counted(put, xs, t)[1..] == Each(put, xs, t);
    ListRoundTrip(put, next, valid, sent, xs, t);
  }

  lemma LimitedListExact<T(!new)>(put: (T, Words) -> Words, next: Cursor -> Parsed<T>, c: Cursor)
    requires ReadsExactly(put, next)
    ensures var r := NextList(next, c);
            r.at.ok ==> c.ok && c.rest == Counted(put, r.value, r.at.rest)
  {
    var count := NextUint(c);
    if NextList(next, c).at.ok {
      ListExact(put, next, count.value, count.at);
    }
  }

  lemma RulesRoundTrip(rules: Vec<AccessRule>, t: Words)
    ensures var r := NextList(NextRule, Cursor(PutRules(rules, t), true));
            && (r.at.ok <==> |rules| <= MAX_SIZE)
            && (r.at.ok ==> r == Parsed(rules, Cursor(t, true)))
  {
    RuleCodec();
    var same := (r: AccessRule) => r;
    LimitedListRoundTrip(PutRule, NextRule, (r: AccessRule) => true, same, rules, t);
    assert MapSent(same, rules) == rules;
  }

  lemma ProfileHeadRoundTrip(p: EuiccProfile, t: Words)
    ensures NextProfileHead(Cursor(PutProfile(p, t), true))
            == Parsed(p.(accessRules := [], portIndex := 0), Cursor(PutRules(p.accessRules, t), true))
  {
    hide NextInt, NextText, Int, Str, PutRules;
    ReadFacts();
  }

  lemma ProfileRoundTrip(p: EuiccProfile, t: Words)
    ensures var r := NextProfile(Cursor(PutProfile(p, t), true));
            && (r.at.ok <==> FewRules(p))
            && (r.at.ok ==> r == Parsed(WithoutPort(p), Cursor(t, true)))
  {
    hide NextProfileHead, PutProfile, PutRules, NextList;
    ProfileHeadRoundTrip(p, t);
    RulesRoundTrip(p.accessRules, t);
  }

  lemma RulesExact(c: Cursor)
    ensures var r := NextList(NextRule, c); r.at.ok ==> c.ok && c.rest == PutRules(r.value, r.at.rest)
  {
    RuleCodec();
    LimitedListExact(PutRule, NextRule, c);
  }

  lemma RulesWrite(rules: Vec<AccessRule>, t: Words)
    ensures PutRules(rules, t) == PutRules(rules, []) + t
  {
    RuleCodec();
    CountedWrites(PutRule, rules, t);
  }

  lemma ProfileExact(c: Cursor)
    ensures NextProfile(c).at.ok ==> c.ok && c.rest == PutProfile(NextProfile(c).value, NextProfile(c).at.rest)
  {
    hide NextInt, NextText, Int, Str, PutRules, NextList;
    RulesExact(NextProfileHead(c).at);
    ExactFacts();
  }

  lemma ProfileHeadWrites(p: EuiccProfile, t: Words)
    ensures PutProfileHead(p, t) == PutProfileHead(p, []) + t
  {
    hide Int, Str;
    WriteFacts();
    assert [] + t == t;
  }

  lemma ProfileWrites(p: EuiccProfile, t: Words)
    ensures PutProfile(p, t) == PutProfile(p, []) + t
    ensures PutProfile(p, []) == PutProfileHead(p, []) + PutRules(p.accessRules, [])
  {
    hide PutProfileHead, PutRules;
    RulesWrite(p.accessRules, t);
    ProfileHeadWrites(p, PutRules(p.accessRules, t));
    ProfileHeadWrites(p, PutRules(p.accessRules, []));
  }

  lemma ProfilesWrite()
    ensures Writes(PutProfile)
  {
    hide PutProfile;
    forall p: EuiccProfile, t: Words ensures PutProfile(p, t) == PutProfile(p, []) + t {
      ProfileWrites(p, t);
    }
  }

  lemma ProfileCodec()
    ensures ReadsBack(PutProfile, NextProfile, FewRules, WithoutPort)
    ensures Rejects(PutProfile, NextProfile, FewRules)
    ensures ReadsExactly(PutProfile, NextProfile)
  {
    hide NextProfile, PutProfile;
    forall p: EuiccProfile, t: Words
      ensures FewRules(p) ==> NextProfile(Cursor(PutProfile(p, t), true)) == Parsed(WithoutPort(p), Cursor(t, true))
      ensures !FewRules(p) ==> !NextProfile(Cursor(PutProfile(p, t), true)).at.ok
    {
      ProfileRoundTrip(p, t);
    }
    forall c: Cursor | NextProfile(c).at.ok
      ensures c.ok && c.rest == PutProfile(NextProfile(c).value, NextProfile(c).at.rest)
    {
      ProfileExact(c);
    }
  }

  lemma DownloadableRoundTrip(p: DownloadableProfile, t: Words)
    ensures var r := NextDownloadable(Cursor(PutDownloadable(p, t), true));
            && (r.at.ok <==> FewDownloadableRules(p))
            && (r.at.ok ==> r == Parsed(p, Cursor(t, true)))
    ensures PutDownloadable(p, t) == PutDownloadable(p, []) + t
  {
    hide NextText, Str, PutRules, NextList;
    ReadFacts();
    RulesRoundTrip(p.accessRules, t);
    RulesWrite(p.accessRules, t);
    WriteFacts();
  }

  lemma DownloadableExact(c: Cursor)
    requires NextDownloadable(c).at.ok
    ensures c.ok && c.rest == PutDownloadable(NextDownloadable(c).value, NextDownloadable(c).at.rest)
  {
    hide NextText, Str, PutRules, NextList;
    RulesExact(NextText(NextText(NextText(c, []).at, []).at, []).at);
    ExactFacts();
  }

  function Whole(p: DownloadableProfile): DownloadableProfile { p }

  lemma DownloadableCodec()
    ensures ReadsBack(PutDownloadable, NextDownloadable, FewDownloadableRules, Whole)
    ensures Rejects(PutDownloadable, NextDownloadable, FewDownloadableRules)
    ensures ReadsExactly(PutDownloadable, NextDownloadable)
  {
    hide NextDownloadable, PutDownloadable;
    forall p: DownloadableProfile, t: Words
      ensures FewDownloadableRules(p) ==>
                NextDownloadable(Cursor(PutDownloadable(p, t), true)) == Parsed(Whole(p), Cursor(t, true))
      ensures !FewDownloadableRules(p) ==> !NextDownloadable(Cursor(PutDownloadable(p, t), true)).at.ok
    {
      DownloadableRoundTrip(p, t);
    }
    forall c: Cursor | NextDownloadable(c).at.ok
      ensures c.ok && c.rest == PutDownloadable(NextDownloadable(c).value, NextDownloadable(c).at.rest)
    {
      DownloadableExact(c);
    }
  }

  // -------------------------------------------------------------- main results

  lemma ResultRoundTrip<T(!new)>(
      put: (T, Words) -> Words, next: Cursor -> Parsed<T>, valid: T -> bool, sent: T -> T, r: Result<T>, t: Words)
    requires ReadsBack(put, next, valid, sent) && Rejects(put, next, valid)
    ensures var got := NextResult(next, Cursor(PutResult(put, r, t), true));
            && (got.at.ok <==> |r.profiles| <= MAX_SIZE && forall p | p in r.profiles :: valid(p))
            && (got.at.ok ==> got == Parsed(Result(r.code, MapSent(sent, r.profiles)), Cursor(t, true)))
  {
    IntRoundTrip(r.code, Counted(put, r.profiles, t), 0);
    LimitedListRoundTrip(put, next, valid, sent, r.profiles, t);
  }

  lemma ResultWrites<T(!new)>(put: (T, Words) -> Words, r: Result<T>, t: Words)
    requires Writes(put)
    ensures PutResult(put, r, t) == PutResult(put, r, []) + t
  {
    CountedWrites(put, r.profiles, t);
    WriteFacts();
  }

  /** The reader accepts a written profile list if and only if it has at most a thousand
      profiles with at most a thousand rules each; then it returns the list with the port
      indices cleared and leaves exactly what followed. */
  lemma ProfileListRoundTrip(r: Result<EuiccProfile>, t: Words)
    ensures var got := NextResult(NextProfile, Cursor(PutResult(PutProfile, r, []) + t, true));
            && (got.at.ok <==> |r.profiles| <= 1000 && forall p | p in r.profiles :: FewRules(p))
            && (got.at.ok ==> got == Parsed(Result(r.code, MapSent(WithoutPort, r.profiles)), Cursor(t, true)))
    ensures var got := NextResult(NextProfile, Cursor(PutResult(PutProfile, r, []) + t, true)).value.profiles;
            |r.profiles| <= 1000 && (forall p | p in r.profiles :: FewRules(p)) ==>
              |got| == |r.profiles| && forall i | 0 <= i < |got| ::
                got[i].portIndex == 0 && got[i].(portIndex := r.profiles[i].portIndex) == r.profiles[i]
  {
    hide NextProfile, PutProfile, FewRules;
    ProfileCodec();
    ProfilesWrite();
    ResultWrites(PutProfile, r, t);
    ResultRoundTrip(PutProfile, NextProfile, FewRules, WithoutPort, r, t);
  }

  /** Any words the reader accepts are the marshalled form of what it returns. */
  lemma ProfileListExact(c: Cursor)
    ensures var got := NextResult(NextProfile, c);
            got.at.ok ==>
              && c.rest == PutResult(PutProfile, got.value, []) + got.at.rest
              && |got.value.profiles| <= MAX_SIZE && forall p | p in got.value.profiles :: FewRules(p)
  {
    ProfileCodec();
    ExactFacts();
    var code := NextInt(c, 0);
    LimitedListExact(PutProfile, NextProfile, code.at);
    var got := NextResult(NextProfile, c);
    ProfilesWrite();
    ResultWrites(PutProfile, got.value, got.at.rest);
    ProfileListRoundTrip(got.value, got.at.rest);
  }

  /** No acceptable list is encoded as the beginning of another's encoding, and equal
      encodings mean equal lists, up to the port indices. */
  lemma ProfileListsPrefixFree(r: Result<EuiccProfile>, r': Result<EuiccProfile>, t: Words, t': Words)
    requires |r.profiles| <= MAX_SIZE && forall p | p in r.profiles :: FewRules(p)
    ensures PutResult(PutProfile, r, []) + t == PutResult(PutProfile, r', []) + t' ==>
              r.code == r'.code && MapSent(WithoutPort, r.profiles) == MapSent(WithoutPort, r'.profiles) && t == t'
  {
    hide PutProfile, NextProfile, PutResult, NextResult, FewRules;
    ProfileListRoundTrip(r, t);
    ProfileListRoundTrip(r', t');
  }

  lemma DownloadablesWrite()
    ensures Writes(PutDownloadable)
  {
    hide PutDownloadable;
    forall p: DownloadableProfile, t: Words ensures PutDownloadable(p, t) == PutDownloadable(p, []) + t {
      DownloadableRoundTrip(p, t);
    }
  }

  /** The same two directions for the lists of downloadable profiles. */
  lemma DownloadableListRoundTrip(r: Result<DownloadableProfile>, t: Words)
    ensures var got := NextResult(NextDownloadable, Cursor(PutResult(PutDownloadable, r, []) + t, true));
            && (got.at.ok <==> |r.profiles| <= 1000 && forall p | p in r.profiles :: FewDownloadableRules(p))
            && (got.at.ok ==> got == Parsed(r, Cursor(t, true)))
  {
    hide NextDownloadable, PutDownloadable, FewDownloadableRules;
    DownloadableCodec();
    DownloadablesWrite();
    ResultWrites(PutDownloadable, r, t);
    ResultRoundTrip(PutDownloadable, NextDownloadable, FewDownloadableRules, Whole, r, t);
    assert MapSent(Whole, r.profiles) == r.profiles;
  }

  lemma DownloadableListExact(c: Cursor)
    requires NextResult(NextDownloadable, c).at.ok
    ensures var got := NextResult(NextDownloadable, c);
            c.rest == PutResult(PutDownloadable, got.value, []) + got.at.rest
            && |got.value.profiles| <= MAX_SIZE && forall p | p in got.value.profiles :: FewDownloadableRules(p)
  {
    DownloadableCodec();
    ExactFacts();
    var code := NextInt(c, 0);
    LimitedListExact(PutDownloadable, NextDownloadable, code.at);
    var got := NextResult(NextDownloadable, c);
    DownloadablesWrite();
    ResultWrites(PutDownloadable, got.value, got.at.rest);
    DownloadableListRoundTrip(got.value, got.at.rest);
  }

  // ----------------------------------------------------------- the nested loops

  /** Reads a count within the limit. */
  method ReadCount(p: Parcel) returns (ok: bool, n: nat)
    modifies p
    ensures var r := NextUint(Cursor(old(p.unread), true));
            ok == (r.at.ok && r.value <= MAX_SIZE) && p.unread == r.at.rest && (ok ==> n == r.value)
  {
    var size;
    ok, size := p.ReadUint32();
    ok, n := ok && size <= MAX_SIZE, size;
  }

  method ReadRules(p: Parcel) returns (ok: bool, rules: seq<AccessRule>)
    modifies p
    ensures var r := NextList(NextRule, Cursor(old(p.unread), true));
            ok == r.at.ok && p.unread == r.at.rest && (ok ==> rules == r.value)
  {
    hide NextRule;
    var n;
    rules := [];
    ok, n := ReadCount(p);
    if ok {
      ok, rules := p.ReadList(NextRule, n);
    }
  }

  method ReadProfile(p: Parcel) returns (ok: bool, profile: EuiccProfile)
    modifies p
    ensures var r := NextProfile(Cursor(old(p.unread), true));
            ok == r.at.ok && p.unread == r.at.rest && (ok ==> profile == r.value)
  {
    ok, profile := p.Run(NextProfileHead);
    if !ok {
      return;
    }
    var rules;
    ok, rules := ReadRules(p);
    if ok {
      profile := profile.(accessRules := rules);
    }
  }

  method ReadProfiles(p: Parcel, n: nat) returns (ok: bool, profiles: seq<EuiccProfile>)
    modifies p
    ensures var r := ListOf(NextProfile, n, Cursor(old(p.unread), true));
            ok == r.at.ok && p.unread == r.at.rest && (ok ==> profiles == r.value)
  {
    hide NextProfile;
    ok, profiles := true, [];
    ghost var all := ListOf(NextProfile, n, Cursor(p.unread, true));
    for i := 0 to n
      invariant ok && ReadSoFar(NextProfile, all, profiles, n - i, Cursor(p.unread, true))
    {
      ReadOneMore(NextProfile, all, profiles, n - i, Cursor(p.unread, true));
      var profile;
      ok, profile := ReadProfile(p);
      if !ok {
        return;
      }
      profiles := profiles + [profile];
    }
  }

  /** GetEuiccProfileInfoListResult::ReadFromParcel on a newly made result. */
  method ReadProfileList(p: Parcel) returns (ok: bool, result: Result<EuiccProfile>)
    modifies p
    ensures var r := NextResult(NextProfile, Cursor(old(p.unread), true));
            ok == r.at.ok && p.unread == r.at.rest && (ok ==> result == r.value)
  {
    hide NextProfile, ListOf;
    var code, n;
    ok, code := p.ReadInt32();
    result := Result(code, []);
    if !ok {
      return;
    }
    ok, n := ReadCount(p);
    if !ok {
      return;
    }
    var profiles;
    ok, profiles := ReadProfiles(p, n);
    if ok {
      result := Result(code, profiles);
    }
  }

  method ReadDownloadable(p: Parcel) returns (ok: bool, profile: DownloadableProfile)
    modifies p
    ensures var r := NextDownloadable(Cursor(old(p.unread), true));
            ok == r.at.ok && p.unread == r.at.rest && (ok ==> profile == r.value)
  {
    var head := NextText(Cursor(p.unread, true), []);
    var confirmation := NextText(head.at, []);
    var carrier := NextText(confirmation.at, []);
    p.unread := carrier.at.rest;
    profile := DownloadableProfile(head.value, confirmation.value, carrier.value, []);
    ok := carrier.at.ok;
    if ok {
      var rules;
      ok, rules := ReadRules(p);
      if ok {
        profile := profile.(accessRules := rules);
      }
    }
  }

  method ReadDownloadables(p: Parcel, n: nat) returns (ok: bool, profiles: seq<DownloadableProfile>)
    modifies p
    ensures var r := ListOf(NextDownloadable, n, Cursor(old(p.unread), true));
            ok == r.at.ok && p.unread == r.at.rest && (ok ==> profiles == r.value)
  {
    hide NextDownloadable;
    ok, profiles := true, [];
    ghost var all := ListOf(NextDownloadable, n, Cursor(p.unread, true));
    for i := 0 to n
      invariant ok && ReadSoFar(NextDownloadable, all, profiles, n - i, Cursor(p.unread, true))
    {
      ReadOneMore(NextDownloadable, all, profiles, n - i, Cursor(p.unread, true));
      var profile;
      ok, profile := ReadDownloadable(p);
      if !ok {
        return;
      }
      profiles := profiles + [profile];
    }
  }

  /** GetDownloadableProfilesResult::ReadFromParcel on a newly made result. */
  method ReadDownloadableList(p: Parcel) returns (ok: bool, result: Result<DownloadableProfile>)
    modifies p
    ensures var r := NextResult(NextDownloadable, Cursor(old(p.unread), true));
            ok == r.at.ok && p.unread == r.at.rest && (ok ==> result == r.value)
  {
    hide NextDownloadable, ListOf;
    var code, n;
    ok, code := p.ReadInt32();
    result := Result(code, []);
    if !ok {
      return;
    }
    ok, n := ReadCount(p);
    if !ok {
      return;
    }
    var profiles;
    ok, profiles := ReadDownloadables(p, n);
    if ok {
      result := Result(code, profiles);
    }
  }

  method WriteProfiles(profiles: seq<EuiccProfile>, p: Parcel)
    modifies p
    ensures p.unread == old(p.unread) + Each(PutProfile, profiles, [])
  {
    hide PutProfile, PutProfileHead, PutRules, Writes;
    ProfilesWrite();
    for i := 0 to |profiles|
      invariant p.unread == old(p.unread) + Each(PutProfile, profiles[..i], [])
    {
      EachSnoc(PutProfile, profiles[..i], profiles[i]);
      assert profiles[..i + 1] == profiles[..i] + [profiles[i]];
      ProfileWrites(profiles[i], []);
      p.Write(PutProfileHead(profiles[i], []));
      WriteRules(profiles[i].accessRules, p);
    }
    assert profiles[..|profiles|] == profiles;
  }

  /** GetEuiccProfileInfoListResult::Marshalling. */
  method WriteProfileList(result: Result<EuiccProfile>, p: Parcel)
    modifies p
    ensures p.unread == old(p.unread) + PutResult(PutProfile, result, [])
  {
    hide PutProfile, Each;
    p.Write(Int(result.code, Count(result.profiles, [])));
    WriteProfiles(result.profiles, p);
  }

  /** GetDownloadableProfilesResult::Marshalling. */
  method WriteDownloadableList(result: Result<DownloadableProfile>, p: Parcel)
    modifies p
    ensures p.unread == old(p.unread) + PutResult(PutDownloadable, result, [])
  {
    hide PutDownloadable, Each, Writes;
    DownloadablesWrite();
    p.Write(Int(result.code, Count(result.profiles, [])));
    p.WriteEach(PutDownloadable, result.profiles);
  }

  method WriteRules(rules: Vec<AccessRule>, p: Parcel)
    modifies p
    ensures p.unread == old(p.unread) + PutRules(rules, [])
  {
    RuleCodec();
    p.WriteCounted(PutRule, rules);
  }
}
