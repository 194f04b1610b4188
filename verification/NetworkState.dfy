/** The registration state: setters that remember the technology they replace, and a codec
    that carries the remembered ones too. */
module NetworkState {
  import opened Wire

  // Enumerations are sent as the numbers they stand for and are not checked on arrival.
  const DOMAIN_TYPE_PS: Word := 0
  const DOMAIN_TYPE_CS: Word := 1
  const RADIO_TECHNOLOGY_UNKNOWN: Word := 0
  const NR_STATE_NOT_SUPPORT: Word := 1

  datatype Operator = Operator(fullName: Text, shortName: Text, operatorNumeric: Text)

  datatype Net = Net(
    isEmergency: bool, psOperatorInfo: Operator, csOperatorInfo: Operator,
    csRoaming: Word, psRoaming: Word, psRegStatus: Word, csRegStatus: Word,
    psRadioTech: Word, csRadioTech: Word, cfgTech: Word, nrState: Word,
    lastPsRadioTech: Word, lastCfgTech: Word,
    psRadioTechV2: Word, csRadioTechV2: Word, cfgTechV2: Word,
    lastPsRadioTechV2: Word, lastCfgTechV2: Word)

  const INITIAL := Net(false, Operator([], [], []), Operator([], [], []), 0, 0, 0, 0,
                       RADIO_TECHNOLOGY_UNKNOWN, RADIO_TECHNOLOGY_UNKNOWN, RADIO_TECHNOLOGY_UNKNOWN,
                       NR_STATE_NOT_SUPPORT, RADIO_TECHNOLOGY_UNKNOWN, RADIO_TECHNOLOGY_UNKNOWN,
                       RADIO_TECHNOLOGY_UNKNOWN, RADIO_TECHNOLOGY_UNKNOWN, RADIO_TECHNOLOGY_UNKNOWN,
                       RADIO_TECHNOLOGY_UNKNOWN, RADIO_TECHNOLOGY_UNKNOWN)

  /** The comparison operator leaves the remembered technologies out. */
  predicate Same(x: Net, y: Net) {
    && x.isEmergency == y.isEmergency && x.csRoaming == y.csRoaming && x.psRoaming == y.psRoaming
    && x.psRegStatus == y.psRegStatus && x.csRegStatus == y.csRegStatus
    && x.psRadioTech == y.psRadioTech && x.csRadioTech == y.csRadioTech && x.cfgTech == y.cfgTech
    && x.psRadioTechV2 == y.psRadioTechV2 && x.csRadioTechV2 == y.csRadioTechV2 && x.cfgTechV2 == y.cfgTechV2
    && x.nrState == y.nrState
    && x.psOperatorInfo == y.psOperatorInfo && x.csOperatorInfo == y.csOperatorInfo
  }

  // ---------------------------------------------------------------- the codec

  function PutOperator(o: Operator, t: Words): Words {
    Str(o.fullName, Str(o.shortName, Str(o.operatorNumeric, t)))
  }

  function PutInts(x: Net, t: Words): Words {
    Int(x.csRoaming, Int(x.psRoaming, Int(x.psRegStatus, Int(x.csRegStatus,
      Int(x.psRadioTech, Int(x.csRadioTech, Int(x.cfgTech, Int(x.nrState,
        Int(x.lastPsRadioTech, Int(x.lastCfgTech,
          Int(x.psRadioTechV2, Int(x.csRadioTechV2, Int(x.cfgTechV2,
            Int(x.lastPsRadioTechV2, Int(x.lastCfgTechV2, t)))))))))))))))
  }

  function Put(x: Net, t: Words): Words {
    Bool(x.isEmergency, PutOperator(x.psOperatorInfo, PutOperator(x.csOperatorInfo, PutInts(x, t))))
  }

  function NextOperator(was: Operator, c: Cursor): (r: Parsed<Operator>)
    ensures !c.ok ==> r == Parsed(was, c)
  {
    var fullName := NextText(c, was.fullName);
    var shortName := NextText(fullName.at, was.shortName);
    var numeric := NextText(shortName.at, was.operatorNumeric);
    Parsed(Operator(fullName.value, shortName.value, numeric.value), numeric.at)
  }

  function NextInts(was: Net, c: Cursor): (r: Parsed<Net>)
    ensures !c.ok ==> r == Parsed(was, c)
  {
    var csRoaming := NextInt(c, was.csRoaming);
    var psRoaming := NextInt(csRoaming.at, was.psRoaming);
    var psRegStatus := NextInt(psRoaming.at, was.psRegStatus);
    var csRegStatus := NextInt(psRegStatus.at, was.csRegStatus);
    var psRadioTech := NextInt(csRegStatus.at, was.psRadioTech);
    var csRadioTech := NextInt(psRadioTech.at, was.csRadioTech);
    var cfgTech := NextInt(csRadioTech.at, was.cfgTech);
    var nrState := NextInt(cfgTech.at, was.nrState);
    var lastPsRadioTech := NextInt(nrState.at, was.lastPsRadioTech);
    var lastCfgTech := NextInt(lastPsRadioTech.at, was.lastCfgTech);
    var psRadioTechV2 := NextInt(lastCfgTech.at, was.psRadioTechV2);
    var csRadioTechV2 := NextInt(psRadioTechV2.at, was.csRadioTechV2);
    var cfgTechV2 := NextInt(csRadioTechV2.at, was.cfgTechV2);
    var lastPsRadioTechV2 := NextInt(cfgTechV2.at, was.lastPsRadioTechV2);
    var lastCfgTechV2 := NextInt(lastPsRadioTechV2.at, was.lastCfgTechV2);
    Parsed(Net(was.isEmergency, was.psOperatorInfo, was.csOperatorInfo,
               csRoaming.value, psRoaming.value, psRegStatus.value, csRegStatus.value,
               psRadioTech.value, csRadioTech.value, cfgTech.value, nrState.value,
               lastPsRadioTech.value, lastCfgTech.value,
               psRadioTechV2.value, csRadioTechV2.value, cfgTechV2.value,
               lastPsRadioTechV2.value, lastCfgTechV2.value), lastCfgTechV2.at)
  }

  function NextStrings(was: Net, c: Cursor): (r: Parsed<Net>)
    ensures !c.ok ==> r == Parsed(was, c)
  {
    var ps := NextOperator(was.psOperatorInfo, c);
    var cs := NextOperator(was.csOperatorInfo, ps.at);
    Parsed(was.(psOperatorInfo := ps.value, csOperatorInfo := cs.value), cs.at)
  }

  function Next(was: Net, c: Cursor): Parsed<Net> {
    var isEmergency := NextBool(c, was.isEmergency);
    var strings := NextStrings(was.(isEmergency := isEmergency.value), isEmergency.at);
    NextInts(strings.value, strings.at)
  }

  lemma IntsReadBack(x: Net, was: Net, t: Words)
    ensures NextInts(was, Cursor(PutInts(x, t), true)) ==
            Parsed(x.(isEmergency := was.isEmergency, psOperatorInfo := was.psOperatorInfo,
                      csOperatorInfo := was.csOperatorInfo), Cursor(t, true))
  {
    hide NextInt, Int;
    ReadFacts();
  }

  lemma PutWrites(x: Net, t: Words)
    ensures Put(x, t) == Put(x, []) + t
  {
    hide Int, Bool, Str;
    WriteFacts();
    assert [] + t == t;
  }

  /** Every field comes back, whatever the reader held, and what followed is left. */
  lemma StateRoundTrip(x: Net, was: Net, t: Words)
    ensures Next(was, Cursor(Put(x, []) + t, true)) == Parsed(x, Cursor(t, true))
  {
    PutWrites(x, t);
    hide NextInts, PutInts, NextBool, Bool, NextText, Str;
    ReadFacts();
    var ps, cs := x.psOperatorInfo, x.csOperatorInfo;
    IntsReadBack(x, was.(isEmergency := x.isEmergency, psOperatorInfo := ps, csOperatorInfo := cs), t);
  }

  /** Without anything to read the object stays as it was. */
  lemma NothingToRead(was: Net)
    ensures Next(was, Cursor([], true)) == Parsed(was, Cursor([], false))
  {
  }

  /** The comparison operator is equality up to the remembered technologies; the encoding tells
      those apart as well, whatever follows it. */
  lemma EncodingIsFinerThanComparison(x: Net, y: Net, t: Words, u: Words)
    ensures Same(x, y) <==>
            x == y.(lastPsRadioTech := x.lastPsRadioTech, lastCfgTech := x.lastCfgTech,
                    lastPsRadioTechV2 := x.lastPsRadioTechV2, lastCfgTechV2 := x.lastCfgTechV2)
    ensures Put(x, []) + t == Put(y, []) + u <==> x == y && t == u
  {
    hide Next, Put;
    StateRoundTrip(x, INITIAL, t);
    StateRoundTrip(y, INITIAL, u);
  }

  // ------------------------------------------------------------------- the runs

  datatype Op =
    | Init
    | SetOperatorInfo(o: Operator, domain: Word)
    | SetLongOperatorName(longName: Text, domain: Word)
    | SetEmergency(isEmergency: bool)
    | SetNetworkType(tech: Word, domain: Word)
    | SetNetworkTypeV2(tech: Word, domain: Word)
    | SetNetworkState(state: Word, domain: Word)
    | SetRoaming(roaming: Word, domain: Word)
    | SetCfgTech(tech: Word)
    | SetCfgTechV2(tech: Word)
    | SetNrState(nrState: Word)
    | Transfer(following: Words)

  /** The effect of one call; a transfer is a write followed by a read into a new object. */
  function Apply(x: Net, op: Op): Net {
    match op
    case Init => INITIAL
    case SetOperatorInfo(o, domain) =>
      if domain == DOMAIN_TYPE_PS then x.(psOperatorInfo := o) else x.(csOperatorInfo := o)
    case SetLongOperatorName(longName, domain) =>
      if domain == DOMAIN_TYPE_PS then x.(psOperatorInfo := x.psOperatorInfo.(fullName := longName))
      else x.(csOperatorInfo := x.csOperatorInfo.(fullName := longName))
    case SetEmergency(isEmergency) => x.(isEmergency := isEmergency)
    case SetNetworkType(tech, domain) =>
      if domain == DOMAIN_TYPE_CS then x.(csRadioTech := tech)
      else x.(lastPsRadioTech := x.psRadioTech, psRadioTech := tech)
    case SetNetworkTypeV2(tech, domain) =>
      if domain == DOMAIN_TYPE_CS then x.(csRadioTechV2 := tech)
      else x.(lastPsRadioTechV2 := x.psRadioTechV2, psRadioTechV2 := tech)
    case SetNetworkState(state, domain) =>
      if domain == DOMAIN_TYPE_CS then x.(csRegStatus := state) else x.(psRegStatus := state)
    case SetRoaming(roaming, domain) =>
      if domain == DOMAIN_TYPE_CS then x.(csRoaming := roaming) else x.(psRoaming := roaming)
    case SetCfgTech(tech) => x.(lastCfgTech := x.cfgTech, cfgTech := tech)
    case SetCfgTechV2(tech) => x.(lastCfgTechV2 := x.cfgTechV2, cfgTechV2 := tech)
    case SetNrState(nrState) => x.(nrState := nrState)
    case Transfer(following) => Next(INITIAL, Cursor(Put(x, []) + following, true)).value
  }

  function After(ops: seq<Op>): Net {
    if ops == [] then INITIAL else Apply(After(ops[..|ops| - 1]), ops[|ops| - 1])
  }

  /** The technologies that are remembered. */
  datatype Tech = PsTech | PsTechV2 | CfgTech | CfgTechV2

  /** Whether a call gives a technology a new value. */
  function Sets(op: Op, which: Tech): seq<Word> {
    match (op, which)
    case (SetNetworkType(tech, domain), PsTech) => if domain == DOMAIN_TYPE_CS then [] else [tech]
    case (SetNetworkTypeV2(tech, domain), PsTechV2) => if domain == DOMAIN_TYPE_CS then [] else [tech]
    case (SetCfgTech(tech), CfgTech) => [tech]
    case (SetCfgTechV2(tech), CfgTechV2) => [tech]
    case _ => []
  }

  /** All values a technology was given since the last reset, oldest first. */
  function History(ops: seq<Op>, which: Tech): seq<Word> {
    if ops == [] then []
    else
      var op := ops[|ops| - 1];
      if op.Init? then [] else History(ops[..|ops| - 1], which) + Sets(op, which)
  }

  /** The entry `back` places from the end; before the beginning nothing is known. */
  function FromEnd(h: seq<Word>, back: nat): Word {
    if back < |h| then h[|h| - 1 - back] else RADIO_TECHNOLOGY_UNKNOWN
  }

  function Current(x: Net, which: Tech): Word {
    match which
    case PsTech => x.psRadioTech
    case PsTechV2 => x.psRadioTechV2
    case CfgTech => x.cfgTech
    case CfgTechV2 => x.cfgTechV2
  }

  function Previous(x: Net, which: Tech): Word {
    match which
    case PsTech => x.lastPsRadioTech
    case PsTechV2 => x.lastPsRadioTechV2
    case CfgTech => x.lastCfgTech
    case CfgTechV2 => x.lastCfgTechV2
  }

  lemma TransferKeeps(x: Net, following: Words)
    ensures Apply(x, Transfer(following)) == x
  {
    hide Next, Put;
    StateRoundTrip(x, INITIAL, following);
  }

  /** A call that gives a technology a value moves the old one back; any other leaves both. */
  lemma OneCall(x: Net, op: Op, which: Tech)
    requires !op.Init?
    ensures var given := Sets(op, which);
            && |given| <= 1
            && Current(Apply(x, op), which) == (if given == [] then Current(x, which) else given[0])
            && Previous(Apply(x, op), which) == (if given == [] then Previous(x, which) else Current(x, which))
  {
    hide Next, Put;
    if op.Transfer? {
      TransferKeeps(x, op.following);
    }
  }

  /** After any run of calls, transfers included, each technology and the one it replaced are
      the last two of all values it was given. */
  lemma {:induction false} TechHistory(ops: seq<Op>, which: Tech)
    ensures Current(After(ops), which) == FromEnd(History(ops, which), 0)
    ensures Previous(After(ops), which) == FromEnd(History(ops, which), 1)
  {
    if ops != [] && !ops[|ops| - 1].Init? {
      hide Apply, Sets, Current, Previous;
      var before, op := ops[..|ops| - 1], ops[|ops| - 1];
      TechHistory(before, which);
      OneCall(After(before), op, which);
    }
  }

  /** A transfer can be left out anywhere in a run without a change at its end. */
  lemma {:induction false} TransferChangesNothing(ops: seq<Op>, following: Words, more: seq<Op>)
    ensures After(ops + [Transfer(following)] + more) == After(ops + more)
  {
    var with, without := ops + [Transfer(following)] + more, ops + more;
    hide Apply;
    if more == [] {
      assert with[..|with| - 1] == ops == without;
      TransferKeeps(After(ops), following);
    } else {
      var front := more[..|more| - 1];
      TransferChangesNothing(ops, following, front);
      assert with[..|with| - 1] == ops + [Transfer(following)] + front;
      assert without[..|without| - 1] == ops + front;
    }
  }

  // -------------------------------------------------------- the other fields

  /** The fields that hold what was last given to them. */
  datatype Field =
    | Emergency | PsFull | PsShort | PsNumeric | CsFull | CsShort | CsNumeric
    | PsRoaming | CsRoaming | PsReg | CsReg | CsTech | CsTechV2 | NrStatus

  datatype Content = Flag(flag: bool) | Name(text: Text) | Number(number: Word)

  function Held(x: Net, f: Field): Content {
    match f
    case Emergency => Flag(x.isEmergency)
    case PsFull => Name(x.psOperatorInfo.fullName)
    case PsShort => Name(x.psOperatorInfo.shortName)
    case PsNumeric => Name(x.psOperatorInfo.operatorNumeric)
    case CsFull => Name(x.csOperatorInfo.fullName)
    case CsShort => Name(x.csOperatorInfo.shortName)
    case CsNumeric => Name(x.csOperatorInfo.operatorNumeric)
    case PsRoaming => Number(x.psRoaming)
    case CsRoaming => Number(x.csRoaming)
    case PsReg => Number(x.psRegStatus)
    case CsReg => Number(x.csRegStatus)
    case CsTech => Number(x.csRadioTech)
    case CsTechV2 => Number(x.csRadioTechV2)
    case NrStatus => Number(x.nrState)
  }

  function Blank(f: Field): Content {
    match f
    case Emergency => Flag(false)
    case PsRoaming => Number(0)
    case CsRoaming => Number(0)
    case PsReg => Number(0)
    case CsReg => Number(0)
    case CsTech => Number(0)
    case CsTechV2 => Number(0)
    case NrStatus => Number(1)
    case _ => Name([])
  }

  /** What a call gives a field: names go to the PS domain only if it is named, numbers to the
      CS domain only if it is named. */
  function GivenTo(op: Op, f: Field): seq<Content> {
    match (op, f)
    case (SetEmergency(isEmergency), Emergency) => [Flag(isEmergency)]
    case (SetOperatorInfo(o, domain), PsFull) => if domain == 0 then [Name(o.fullName)] else []
    case (SetOperatorInfo(o, domain), PsShort) => if domain == 0 then [Name(o.shortName)] else []
    case (SetOperatorInfo(o, domain), PsNumeric) => if domain == 0 then [Name(o.operatorNumeric)] else []
    case (SetOperatorInfo(o, domain), CsFull) => if domain != 0 then [Name(o.fullName)] else []
    case (SetOperatorInfo(o, domain), CsShort) => if domain != 0 then [Name(o.shortName)] else []
    case (SetOperatorInfo(o, domain), CsNumeric) => if domain != 0 then [Name(o.operatorNumeric)] else []
    case (SetLongOperatorName(longName, domain), PsFull) => if domain == 0 then [Name(longName)] else []
    case (SetLongOperatorName(longName, domain), CsFull) => if domain != 0 then [Name(longName)] else []
    case (SetNetworkType(tech, domain), CsTech) => if domain == 1 then [Number(tech)] else []
    case (SetNetworkTypeV2(tech, domain), CsTechV2) => if domain == 1 then [Number(tech)] else []
    case (SetNetworkState(state, domain), CsReg) => if domain == 1 then [Number(state)] else []
    case (SetNetworkState(state, domain), PsReg) => if domain != 1 then [Number(state)] else []
    case (SetRoaming(roaming, domain), CsRoaming) => if domain == 1 then [Number(roaming)] else []
    case (SetRoaming(roaming, domain), PsRoaming) => if domain != 1 then [Number(roaming)] else []
    case (SetNrState(nrState), NrStatus) => [Number(nrState)]
    case _ => []
  }

  /** The content last given to a field since the last reset. */
  function LastGiven(ops: seq<Op>, f: Field): Content {
    if ops == [] then Blank(f)
    else
      var op := ops[|ops| - 1];
      if op.Init? then Blank(f)
      else if GivenTo(op, f) != [] then GivenTo(op, f)[0]
      else LastGiven(ops[..|ops| - 1], f)
  }

  lemma OneCallGives(x: Net, op: Op, f: Field)
    requires !op.Init?
    ensures Held(Apply(x, op), f) == if GivenTo(op, f) == [] then Held(x, f) else GivenTo(op, f)[0]
  {
    hide Next, Put;
    if op.Transfer? {
      TransferKeeps(x, op.following);
    }
  }

  /** After any run of calls, transfers included, every other field holds what was last given to
      it for its domain. */
  lemma {:induction false} FieldsHoldLastGiven(ops: seq<Op>, f: Field)
    ensures Held(After(ops), f) == LastGiven(ops, f)
  {
    if ops != [] && !ops[|ops| - 1].Init? {
      hide Apply, Held, GivenTo;
      FieldsHoldLastGiven(ops[..|ops| - 1], f);
      OneCallGives(After(ops[..|ops| - 1]), ops[|ops| - 1], f);
    }
  }

  // ----------------------------------------------------------------- the object

  class State {
    var isEmergency: bool
    var psOperatorInfo: Operator
    var csOperatorInfo: Operator
    var csRoaming: Word
    var psRoaming: Word
    var psRegStatus: Word
    var csRegStatus: Word
    var psRadioTech: Word
    var csRadioTech: Word
    var cfgTech: Word
    var nrState: Word
    var lastPsRadioTech: Word
    var lastCfgTech: Word
    var psRadioTechV2: Word
    var csRadioTechV2: Word
    var cfgTechV2: Word
    var lastPsRadioTechV2: Word
    var lastCfgTechV2: Word

    function Value(): Net
      reads this
    {
      Net(isEmergency, psOperatorInfo, csOperatorInfo, csRoaming, psRoaming, psRegStatus, csRegStatus,
          psRadioTech, csRadioTech, cfgTech, nrState, lastPsRadioTech, lastCfgTech,
          psRadioTechV2, csRadioTechV2, cfgTechV2, lastPsRadioTechV2, lastCfgTechV2)
    }

    constructor ()
      ensures Value() == INITIAL
    {
      new;
      Init();
    }

    method Init()
      modifies this
      ensures Value() == Apply(old(Value()), Op.Init)
    {
      Assign(INITIAL);
    }

    method Assign(x: Net)
      modifies this
      ensures Value() == x
    {
      AssignService(x);
      AssignTech(x);
      AssignTechV2(x);
    }

    method AssignService(x: Net)
      modifies this`isEmergency, this`psOperatorInfo, this`csOperatorInfo, this`csRoaming, this`psRoaming,
        this`psRegStatus, this`csRegStatus
      ensures isEmergency == x.isEmergency && psOperatorInfo == x.psOperatorInfo && csOperatorInfo ==
        x.csOperatorInfo && csRoaming == x.csRoaming && psRoaming == x.psRoaming && psRegStatus == x.psRegStatus
        && csRegStatus == x.csRegStatus
    {
      isEmergency := x.isEmergency;
      psOperatorInfo := x.psOperatorInfo;
      csOperatorInfo := x.csOperatorInfo;
      csRoaming := x.csRoaming;
      psRoaming := x.psRoaming;
      psRegStatus := x.psRegStatus;
      csRegStatus := x.csRegStatus;
    }

    method AssignTech(x: Net)
      modifies this`psRadioTech, this`csRadioTech, this`cfgTech, this`nrState, this`lastPsRadioTech,
        this`lastCfgTech
      ensures psRadioTech == x.psRadioTech && csRadioTech == x.csRadioTech && cfgTech == x.cfgTech && nrState ==
        x.nrState && lastPsRadioTech == x.lastPsRadioTech && lastCfgTech == x.lastCfgTech
    {
      psRadioTech := x.psRadioTech;
      csRadioTech := x.csRadioTech;
      cfgTech := x.cfgTech;
      nrState := x.nrState;
      lastPsRadioTech := x.lastPsRadioTech;
      lastCfgTech := x.lastCfgTech;
    }

    method AssignTechV2(x: Net)
      modifies this`psRadioTechV2, this`csRadioTechV2, this`cfgTechV2, this`lastPsRadioTechV2,
        this`lastCfgTechV2
      ensures psRadioTechV2 == x.psRadioTechV2 && csRadioTechV2 == x.csRadioTechV2 && cfgTechV2 == x.cfgTechV2
        && lastPsRadioTechV2 == x.lastPsRadioTechV2 && lastCfgTechV2 == x.lastCfgTechV2
    {
      psRadioTechV2 := x.psRadioTechV2;
      csRadioTechV2 := x.csRadioTechV2;
      cfgTechV2 := x.cfgTechV2;
      lastPsRadioTechV2 := x.lastPsRadioTechV2;
      lastCfgTechV2 := x.lastCfgTechV2;
    }

    method SetNetworkType(tech: Word, domain: Word)
      modifies this`csRadioTech, this`lastPsRadioTech, this`psRadioTech
      ensures Value() == Apply(old(Value()), Op.SetNetworkType(tech, domain))
    {
      if domain == DOMAIN_TYPE_CS {
        csRadioTech := tech;
      } else {
        lastPsRadioTech := psRadioTech;
        psRadioTech := tech;
      }
    }

    method SetNetworkTypeV2(tech: Word, domain: Word)
      modifies this`csRadioTechV2, this`lastPsRadioTechV2, this`psRadioTechV2
      ensures Value() == Apply(old(Value()), Op.SetNetworkTypeV2(tech, domain))
    {
      if domain == DOMAIN_TYPE_CS {
        csRadioTechV2 := tech;
      } else {
        lastPsRadioTechV2 := psRadioTechV2;
        psRadioTechV2 := tech;
      }
    }

    method SetCfgTech(tech: Word)
      modifies this`lastCfgTech, this`cfgTech
      ensures Value() == Apply(old(Value()), Op.SetCfgTech(tech))
    {
      lastCfgTech := cfgTech;
      cfgTech := tech;
    }

    method SetCfgTechV2(tech: Word)
      modifies this`lastCfgTechV2, this`cfgTechV2
      ensures Value() == Apply(old(Value()), Op.SetCfgTechV2(tech))
    {
      lastCfgTechV2 := cfgTechV2;
      cfgTechV2 := tech;
    }

    method SetOperatorInfo(o: Operator, domain: Word)
      modifies this`psOperatorInfo, this`csOperatorInfo
      ensures Value() == Apply(old(Value()), Op.SetOperatorInfo(o, domain))
    {
      if domain == DOMAIN_TYPE_PS {
        psOperatorInfo := o;
      } else {
        csOperatorInfo := o;
      }
    }

    method SetLongOperatorName(longName: Text, domain: Word)
      modifies this`psOperatorInfo, this`csOperatorInfo
      ensures Value() == Apply(old(Value()), Op.SetLongOperatorName(longName, domain))
    {
      if domain == DOMAIN_TYPE_PS {
        psOperatorInfo := psOperatorInfo.(fullName := longName);
      } else {
        csOperatorInfo := csOperatorInfo.(fullName := longName);
      }
    }

    method SetNetworkState(state: Word, domain: Word)
      modifies this`csRegStatus, this`psRegStatus
      ensures Value() == Apply(old(Value()), Op.SetNetworkState(state, domain))
    {
      if domain == DOMAIN_TYPE_CS {
        csRegStatus := state;
      } else {
        psRegStatus := state;
      }
    }

    method SetRoaming(roaming: Word, domain: Word)
      modifies this`csRoaming, this`psRoaming
      ensures Value() == Apply(old(Value()), Op.SetRoaming(roaming, domain))
    {
      if domain == DOMAIN_TYPE_CS {
        csRoaming := roaming;
      } else {
        psRoaming := roaming;
      }
    }

    method SetEmergency(isEmergency: bool)
      modifies this`isEmergency
      ensures Value() == Apply(old(Value()), Op.SetEmergency(isEmergency))
    {
      this.isEmergency := isEmergency;
    }

    method SetNrState(nrState: Word)
      modifies this`nrState
      ensures Value() == Apply(old(Value()), Op.SetNrState(nrState))
    {
      this.nrState := nrState;
    }

    method Marshalling(p: Parcel)
      modifies p
      ensures p.unread == old(p.unread) + Put(Value(), [])
    {
      p.Write(Put(Value(), []));
    }

    method ReadParcelString(p: Parcel) returns (ok: bool)
      modifies this`psOperatorInfo, this`csOperatorInfo, p
      ensures Parsed(Value(), Cursor(p.unread, ok)) == NextStrings(old(Value()), Cursor(old(p.unread), true))
    {
      hide NextOperator;
      var ps, cs := psOperatorInfo, csOperatorInfo;
      ok, psOperatorInfo := p.Run(c => NextOperator(ps, c));
      if !ok {
        return;
      }
      ok, csOperatorInfo := p.Run(c => NextOperator(cs, c));
    }

    method ReadParcelInt(p: Parcel) returns (ok: bool)
      modifies this, p
      ensures Parsed(Value(), Cursor(p.unread, ok)) == NextInts(old(Value()), Cursor(old(p.unread), true))
    {
      hide NextInts;
      var was := Value();
      var x;
      ok, x := p.Run(c => NextInts(was, c));
      Assign(x);
    }

    /** The emergency flag, the texts, the numbers; reading stops at the first that fails. */
    method ReadFromParcel(p: Parcel) returns (ok: bool)
      modifies this, p
      ensures Parsed(Value(), Cursor(p.unread, ok)) == Next(old(Value()), Cursor(old(p.unread), true))
    {
      hide NextBool, NextStrings, NextInts;
      var flag := isEmergency;
      ok, isEmergency := p.Run(c => NextBool(c, flag));
      if !ok {
        return;
      }
      ok := ReadParcelString(p);
      if !ok {
        return;
      }
      ok := ReadParcelInt(p);
    }
  }

  /** Sends a state through a parcel that may hold more, into a new object. */
  method Send(x: State, following: Words) returns (y: State, ok: bool)
    ensures fresh(y) && ok && y.Value() == Apply(x.Value(), Op.Transfer(following))
  {
    hide Next, Put;
    var p := new Parcel();
    x.Marshalling(p);
    p.Write(following);
    assert p.unread == Put(x.Value(), []) + following;
    y := new State();
    StateRoundTrip(x.Value(), INITIAL, following);
    ok := y.ReadFromParcel(p);
  }

  /** Makes the call on the object; a transfer goes on with the object that was read. */
  method Perform(x: State, op: Op) returns (y: State)
    modifies x
    ensures (y == x || fresh(y)) && y.Value() == Apply(old(x.Value()), op)
  {
    hide Apply;
    y := x;
    match op
    case Init => x.Init();
    case SetOperatorInfo(o, domain) => x.SetOperatorInfo(o, domain);
    case SetLongOperatorName(longName, domain) => x.SetLongOperatorName(longName, domain);
    case SetEmergency(isEmergency) => x.SetEmergency(isEmergency);
    case SetNetworkType(tech, domain) => x.SetNetworkType(tech, domain);
    case SetNetworkTypeV2(tech, domain) => x.SetNetworkTypeV2(tech, domain);
    case SetNetworkState(state, domain) => x.SetNetworkState(state, domain);
    case SetRoaming(roaming, domain) => x.SetRoaming(roaming, domain);
    case SetCfgTech(tech) => x.SetCfgTech(tech);
    case SetCfgTechV2(tech) => x.SetCfgTechV2(tech);
    case SetNrState(nrState) => x.SetNrState(nrState);
    case Transfer(following) =>
      var ok;
      y, ok := Send(x, following);
  }

  /** Any run of calls on an object, transfers included, leaves each technology and the one it
      replaced as the last two values it was given, and every other field as it was last given. */
  method PerformAll(ops: seq<Op>) returns (x: State)
    ensures fresh(x) && x.Value() == After(ops)
    ensures forall which: Tech ::
              && Current(x.Value(), which) == FromEnd(History(ops, which), 0)
              && Previous(x.Value(), which) == FromEnd(History(ops, which), 1)
    ensures forall f: Field :: Held(x.Value(), f) == LastGiven(ops, f)
  {
    hide Apply, Current, Previous, FromEnd, History, Held, LastGiven;
    x := new State();
    for k := 0 to |ops|
      invariant fresh(x) && x.Value() == After(ops[..k])
    {
      assert ops[..k + 1][..k] == ops[..k];
      x := Perform(x, ops[k]);
    }
    assert ops[..|ops|] == ops;
    forall which: Tech {
      TechHistory(ops, which);
    }
    forall f: Field {
      FieldsHoldLastGiven(ops, f);
    }
  }
}
