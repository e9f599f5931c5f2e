/**
 The panel of each Brother scanner and the button assignments it is derived from: two maps written by
 one operation, which asks the printer in between and may be told no.
 */
module Panel {
  import opened PanelFunction
  import opened Wrappers

  type Profile = nat

  /** The panel entries in button order, which is also the order they are registered in. */
  const ALL: seq<Function> := [File, Image, Ocr, Email]

  function FromButtonIndex(index: nat): (f: Option<Function>)
    ensures f.Some? <==> index < |ALL|
    ensures f.Some? ==> f.value.ButtonIndex() == index
  {
    if index < |ALL| then Some(ALL[index]) else None
  }

  /** What the printer makes of one registration. */
  datatype Answer = Accepted | Refused | Silent | Nonsense

  datatype RegistrarError = DeviceUnreachable | DeviceRefused | DeviceUnexpected

  datatype BackendError = Other | NotReachable | Unsupported

  function IntoBackendError(e: RegistrarError): BackendError {
    match e
    case DeviceUnreachable => NotReachable
    case DeviceRefused => Unsupported
    case DeviceUnexpected => Other
  }

  /** The network during one call: which addresses are routed, and what each printer answers. */
  datatype Network = Network(routed: Address -> bool, answer: (Address, Function) -> Answer) {
    /** The address is reachable and the printer there takes every one of these. */
    predicate Takes(device: Address, functions: set<Function>) {
      routed(device) && forall f | f in functions :: answer(device, f) == Accepted
    }
  }

  function AnswerError(a: Answer): Result<(), RegistrarError> {
    match a
    case Accepted => Ok(())
    case Refused => Err(DeviceRefused)
    case Silent => Err(DeviceUnreachable)
    case Nonsense => Err(DeviceUnexpected)
  }

  /** Register in order; the first failure wins. */
  function FirstFailure(todo: seq<Function>, functions: set<Function>, device: Address, net: Network)
    : (r: Result<(), RegistrarError>)
    ensures r.Ok? <==> forall f | f in todo && f in functions :: net.answer(device, f) == Accepted
  {
    if |todo| == 0 then Ok(())
    else if todo[0] in functions && net.answer(device, todo[0]) != Accepted then
      AnswerError(net.answer(device, todo[0]))
    else FirstFailure(todo[1..], functions, device, net)
  }

  /** The four entries of the panel, each by its index. */
  lemma {:induction false} ButtonsAre(index: nat, f: Function)
    ensures FromButtonIndex(index) == Some(f) <==> index == f.ButtonIndex()
    ensures index == f.ButtonIndex() <==>
              (index == 0 && f.File?) || (index == 1 && f.Image?) || (index == 2 && f.Ocr?) || (index == 3 && f.Email?)
  {
  }

  lemma {:induction false} EveryFunctionIsListed()
    ensures forall f: Function :: f in ALL
  {
    forall f: Function
      ensures f in ALL
    {
      assert ALL[f.ButtonIndex()] == f;
    }
  }

  function FirstRound(functions: set<Function>, device: Address, net: Network): (r: Result<(), RegistrarError>)
    ensures r.Ok? <==> net.Takes(device, functions)
  {
    EveryFunctionIsListed();
    if !net.routed(device) then Err(DeviceUnreachable) else FirstFailure(ALL, functions, device, net)
  }

  datatype Registrar = Registrar(device: Address, functions: set<Function>, running: bool)

  datatype State = State(
    buttons: map<(Scanner, nat), Profile>,
    registrars: map<Scanner, Registrar>,
    devices: map<Scanner, Address>,
    /** What each device itself said about scan-to-PC, where it said anything. */
    available: map<Scanner, bool>)

  /** The functions one scanner has assigned. */
  function AssignedFunctions(buttons: map<(Scanner, nat), Profile>, scanner: Scanner): (r: set<Function>)
    ensures forall f: Function :: f in r <==> (scanner, f.ButtonIndex()) in buttons
  {
    set f: Function | (scanner, f.ButtonIndex()) in buttons
  }

  /** The functions being kept on a scanner's panel. */
  function Kept(s: State, scanner: Scanner): set<Function> {
    if scanner in s.registrars then s.registrars[scanner].functions else {}
  }

  /** Stop, register, and run only if all of it was accepted. */
  function StartStep(r: Registrar, functions: set<Function>, net: Network): (Registrar, Result<(), RegistrarError>) {
    if functions == {} then (Registrar(r.device, {}, false), Ok(()))
    else
      var answer := FirstRound(functions, r.device, net);
      (if answer.Ok? then Registrar(r.device, functions, true) else Registrar(r.device, {}, false), answer)
  }

  function NoteAnswer(available: map<Scanner, bool>, scanner: Scanner, answer: Result<(), RegistrarError>)
    : map<Scanner, bool>
  {
    match answer
    case Ok(_) => available[scanner := true]
    case Err(DeviceRefused) => available[scanner := false]
    case Err(_) => available
  }

  function RegisterStep(s: State, scanner: Scanner, functions: set<Function>, net: Network)
    : (State, Result<(), BackendError>)
  {
    if functions == {} then
      (s.(registrars := s.registrars - {scanner}), Ok(()))
    else if scanner !in s.devices then
      (s, Err(NotReachable))
    else
      var device := s.devices[scanner];
      var kept := scanner in s.registrars && s.registrars[scanner].device == device;
      var registrar := if kept then s.registrars[scanner] else Registrar(device, {}, false);
      var done := StartStep(registrar, functions, net);
      (s.(registrars := s.registrars[scanner := done.0], available := NoteAnswer(s.available, scanner, done.1)),
       match done.1 case Ok(_) => Ok(()) case Err(e) => Err(IntoBackendError(e)))
  }

  /** Assign a profile to a key, or clear it. */
  function SetButtonStep(s: State, scanner: Scanner, index: nat, profile: Option<Profile>, net: Network)
    : (State, Result<(), BackendError>)
  {
    match FromButtonIndex(index)
    case None => (s, Err(Other))
    case Some(f) =>
      var current := AssignedFunctions(s.buttons, scanner);
      var functions := if profile.Some? then current + {f} else current - {f};
      var asked := RegisterStep(s, scanner, functions, net);
      if asked.1.Err? then asked
      else
        (asked.0.(buttons := if profile.Some? then s.buttons[(scanner, index) := profile.value]
                             else s.buttons - {(scanner, index)}),
         asked.1)
  }

  function ForgetStep(s: State, scanner: Scanner): State {
    s.(registrars := s.registrars - {scanner},
       buttons := map key | key in s.buttons && key.0 != scanner :: s.buttons[key])
  }

  function NoteDeviceStep(s: State, scanner: Scanner, device: Option<Address>): State {
    s.(devices := if device.Some? then s.devices[scanner := device.value] else s.devices - {scanner})
  }

  // ----- The backend itself -----

  class Backend {
    var buttons: map<(Scanner, nat), Profile>
    var registrars: map<Scanner, Registrar>
    var devices: map<Scanner, Address>
    var available: map<Scanner, bool>

    function Snapshot(): State
      reads this
    {
      State(buttons, registrars, devices, available)
    }

    constructor ()
      ensures Snapshot() == State(map[], map[], map[], map[])
    {
      buttons, registrars, devices, available := map[], map[], map[], map[];
    }

    /** The awaited round of a start: one request per function, in order. */
    static method RegisterAll(functions: set<Function>, device: Address, net: Network)
      returns (r: Result<(), RegistrarError>)
      ensures r == FirstRound(functions, device, net)
    {
      if !net.routed(device) {
        return Err(DeviceUnreachable);
      }
      assert ALL[0..] == ALL;
      for i := 0 to |ALL|
        invariant FirstFailure(ALL, functions, device, net) == FirstFailure(ALL[i..], functions, device, net)
      {
        assert ALL[i..][1..] == ALL[i + 1..];
        if ALL[i] in functions {
          var answer := AnswerError(net.answer(device, ALL[i]));
          if answer.Err? {
            return answer;
          }
        }
      }
      return Ok(());
    }

    static method Start(r: Registrar, functions: set<Function>, net: Network)
      returns (started: Registrar, answer: Result<(), RegistrarError>)
      ensures (started, answer) == StartStep(r, functions, net)
    {
      started := r.(functions := {}, running := false);
      if functions == {} {
        return started, Ok(());
      }
      started := started.(functions := functions);
      answer := RegisterAll(functions, r.device, net);
      if answer.Ok? {
        started := started.(running := true);
      } else {
        started := started.(functions := {});
      }
    }

    method RegisterFunctions(scanner: Scanner, functions: set<Function>, net: Network)
      returns (r: Result<(), BackendError>)
      modifies this
      ensures (Snapshot(), r) == RegisterStep(old(Snapshot()), scanner, functions, net)
    {
      if functions == {} {
        registrars := registrars - {scanner};
        return Ok(());
      }
      if scanner !in devices {
        return Err(NotReachable);
      }
      var device := devices[scanner];
      if scanner in registrars && registrars[scanner].device != device {
        registrars := registrars - {scanner};
      }
      if scanner !in registrars {
        registrars := registrars[scanner := Registrar(device, {}, false)];
      }
      var started, answer := Start(registrars[scanner], functions, net);
      registrars := registrars[scanner := started];
      available := NoteAnswer(available, scanner, answer);
      assert registrars == old(registrars)[scanner := started];
      match answer {
        case Ok(_) => return Ok(());
        case Err(e) => return Err(IntoBackendError(e));
      }
    }

    method SetButtonMapping(scanner: Scanner, index: nat, profile: Option<Profile>, net: Network)
      returns (r: Result<(), BackendError>)
      modifies this
      ensures (Snapshot(), r) == SetButtonStep(old(Snapshot()), scanner, index, profile, net)
    {
      var function_ := FromButtonIndex(index);
      if function_.None? {
        return Err(Other);
      }
      var functions := AssignedFunctions(buttons, scanner);
      if profile.Some? {
        functions := functions + {function_.value};
      } else {
        functions := functions - {function_.value};
      }
      r := RegisterFunctions(scanner, functions, net);
      if r.Err? {
        return;
      }
      match profile {
        case Some(p) => buttons := buttons[(scanner, index) := p];
        case None => buttons := buttons - {(scanner, index)};
      }
    }

    method Forget(scanner: Scanner)
      modifies this
      ensures Snapshot() == ForgetStep(old(Snapshot()), scanner)
      ensures registrars == old(registrars) - {scanner}
      ensures forall key :: key in buttons <==> key in old(buttons) && key.0 != scanner
      ensures forall key | key in buttons :: buttons[key] == old(buttons)[key]
      ensures devices == old(devices) && available == old(available)
    {
      registrars := registrars - {scanner};
      buttons := map key | key in buttons && key.0 != scanner :: buttons[key];
    }

    method NoteDevice(scanner: Scanner, device: Option<Address>)
      modifies this
      ensures Snapshot() == NoteDeviceStep(old(Snapshot()), scanner, device)
      ensures devices == if device.Some? then old(devices)[scanner := device.value] else old(devices) - {scanner}
      ensures buttons == old(buttons) && registrars == old(registrars) && available == old(available)
    {
      match device {
        case Some(address) => devices := devices[scanner := address];
        case None => devices := devices - {scanner};
      }
    }
  }

  // ----- Every run -----

  /** The refresh runs exactly while there is something to refresh. */
  predicate RunsIffKept(s: State, scanner: Scanner) {
    scanner in s.registrars ==> (s.registrars[scanner].running <==> s.registrars[scanner].functions != {})
  }

  /** What a panel shows and what is assigned never disagree: it is all of it or none of it. */
  ghost predicate AgreesFor(s: State, scanner: Scanner) {
    && (Kept(s, scanner) == {} || Kept(s, scanner) == AssignedFunctions(s.buttons, scanner))
    && RunsIffKept(s, scanner)
  }

  ghost predicate Agrees(s: State) {
    && (forall scanner :: AgreesFor(s, scanner))
    && (forall key | key in s.buttons :: key.1 < |ALL|)
  }

  /** Nothing of this scanner's changed. */
  ghost predicate SameFor(s: State, t: State, scanner: Scanner) {
    && (scanner in s.registrars <==> scanner in t.registrars)
    && (scanner in s.registrars ==> s.registrars[scanner] == t.registrars[scanner])
    && (forall i: nat :: ((scanner, i) in s.buttons <==> (scanner, i) in t.buttons)
                         && ((scanner, i) in s.buttons ==> s.buttons[(scanner, i)] == t.buttons[(scanner, i)]))
  }

  lemma {:induction false} SameAgrees(s: State, t: State, scanner: Scanner)
    requires SameFor(s, t, scanner) && AgreesFor(s, scanner)
    ensures AgreesFor(t, scanner)
  {
    assert AssignedFunctions(s.buttons, scanner) == AssignedFunctions(t.buttons, scanner);
  }

  /**
   Registering a set leaves it on the panel if all of it was taken, and otherwise nothing, unless nobody was
   asked.
   */
  lemma {:induction false} Registering(s: State, scanner: Scanner, functions: set<Function>, net: Network)
    requires RunsIffKept(s, scanner)
    ensures var t := RegisterStep(s, scanner, functions, net).0;
            var r := RegisterStep(s, scanner, functions, net).1;
            && t.buttons == s.buttons && t.devices == s.devices
            && t.registrars - {scanner} == s.registrars - {scanner}
            && RunsIffKept(t, scanner)
            && (r.Ok? ==> Kept(t, scanner) == functions)
            && (r.Err? ==> Kept(t, scanner) == {} || t.registrars == s.registrars)
            && (r.Ok? && functions != {} ==>
                  scanner in s.devices && t.registrars[scanner].device == s.devices[scanner]
                  && net.Takes(s.devices[scanner], functions))
  {
    hide FirstRound;
  }

  /** What a caller is told for each answer of the printer but the good one. */
  predicate IsErrorFor(error: BackendError, answer: Answer) {
    || (error == Unsupported && answer == Refused)
    || (error == NotReachable && answer == Silent)
    || (error == Other && answer == Nonsense)
  }

  /** The first function, in the order of the buttons, whose registration did not go well. */
  predicate FirstToFail(functions: set<Function>, device: Address, net: Network, f: Function) {
    && f in functions && net.answer(device, f) != Accepted
    && forall g: Function | g in functions && g.ButtonIndex() < f.ButtonIndex() :: net.answer(device, g) == Accepted
  }

  lemma {:induction false} FirstFailureIs(functions: set<Function>, device: Address, net: Network, k: nat)
    returns (f: Function)
    requires k <= |ALL| && forall j | 0 <= j < k && ALL[j] in functions :: net.answer(device, ALL[j]) == Accepted
    ensures var r := FirstFailure(ALL[k..], functions, device, net);
            r.Err? ==> FirstToFail(functions, device, net, f)
                       && IsErrorFor(IntoBackendError(r.error), net.answer(device, f))
    decreases |ALL| - k
  {
    f := File;
    if k < |ALL| {
      assert ALL[k..][0] == ALL[k] && ALL[k..][1..] == ALL[k + 1..];
      if ALL[k] in functions && net.answer(device, ALL[k]) != Accepted {
        f := ALL[k];
        FailsFirst(functions, device, net, k);
      } else {
        f := FirstFailureIs(functions, device, net, k + 1);
      }
    }
  }

  lemma {:induction false} FailsFirst(functions: set<Function>, device: Address, net: Network, k: nat)
    requires k < |ALL| && forall j | 0 <= j < k && ALL[j] in functions :: net.answer(device, ALL[j]) == Accepted
    requires ALL[k] in functions && net.answer(device, ALL[k]) != Accepted
    ensures FirstToFail(functions, device, net, ALL[k])
  {
    forall g: Function | g in functions && g.ButtonIndex() < ALL[k].ButtonIndex()
      ensures net.answer(device, g) == Accepted
    {
      assert ALL[g.ButtonIndex()] == g && ALL[k].ButtonIndex() == k;
    }
  }

  /** A registration that fails says why, and what it proved about the panel is noted. */
  lemma {:induction false} RegisteringFails(s: State, scanner: Scanner, functions: set<Function>, net: Network)
    ensures var t := RegisterStep(s, scanner, functions, net).0;
            var r := RegisterStep(s, scanner, functions, net).1;
            && (r.Err? && scanner !in s.devices ==> r.error == NotReachable)
            && (r.Err? && scanner in s.devices && !net.routed(s.devices[scanner]) ==> r.error == NotReachable)
            && (r.Err? && scanner in s.devices && net.routed(s.devices[scanner]) ==>
                  exists f :: FirstToFail(functions, s.devices[scanner], net, f)
                              && IsErrorFor(r.error, net.answer(s.devices[scanner], f)))
            && (t.available == if functions == {} || scanner !in s.devices then s.available
                               else if r.Ok? then s.available[scanner := true]
                               else if r.error == Unsupported then s.available[scanner := false]
                               else s.available)
  {
    if functions != {} && scanner in s.devices && net.routed(s.devices[scanner]) {
      assert ALL == ALL[0..];
      var f := FirstFailureIs(functions, s.devices[scanner], net, 0);
    }
  }

  lemma {:induction false} SameButOne(s: State, t: State, scanner: Scanner, other: Scanner)
    requires t.registrars - {scanner} == s.registrars - {scanner} && other != scanner
    requires forall i: nat :: ((other, i) in s.buttons <==> (other, i) in t.buttons)
                              && ((other, i) in s.buttons ==> s.buttons[(other, i)] == t.buttons[(other, i)])
    ensures SameFor(s, t, other)
  {
    assert other in s.registrars <==> other in s.registrars - {scanner};
    assert other in t.registrars <==> other in t.registrars - {scanner};
    if other in s.registrars {
      assert s.registrars[other] == (s.registrars - {scanner})[other];
      assert t.registrars[other] == (t.registrars - {scanner})[other];
    }
  }

  /** One call, told completely: when it succeeds, and what it leaves either way. */
  lemma {:induction false} SettingAButton(
    s: State, scanner: Scanner, index: nat, profile: Option<Profile>, net: Network)
    requires Agrees(s)
    ensures var t := SetButtonStep(s, scanner, index, profile, net).0;
            var r := SetButtonStep(s, scanner, index, profile, net).1;
            && (forall other | other != scanner :: SameFor(s, t, other))
            && t.devices == s.devices
            && (r.Err? ==> t.buttons == s.buttons)
            && (r.Ok? ==> index < |ALL| && Kept(t, scanner) == AssignedFunctions(t.buttons, scanner))
            && (r.Ok? ==> ((scanner, index) in t.buttons <==> profile.Some?))
            && (r.Ok? ==> forall i: nat | i != index ::
                  (scanner, i) in t.buttons <==> (scanner, i) in s.buttons)
            && (r.Ok? && profile.Some? ==> t.buttons[(scanner, index)] == profile.value)
            && (r.Ok? && Kept(t, scanner) != {} ==>
                  scanner in s.devices && t.registrars[scanner].device == s.devices[scanner]
                  && net.Takes(s.devices[scanner], Kept(t, scanner)))
            && AgreesFor(t, scanner)
  {
    hide RegisterStep, SameFor;
    assert AgreesFor(s, scanner);
    var t := SetButtonStep(s, scanner, index, profile, net).0;
    if index < |ALL| {
      var f := FromButtonIndex(index).value;
      var current := AssignedFunctions(s.buttons, scanner);
      Registering(s, scanner, if profile.Some? then current + {f} else current - {f}, net);
      OnlyOneFunctionPerIndex(f, index);
      if SetButtonStep(s, scanner, index, profile, net).1.Ok? {
        assert AssignedFunctions(t.buttons, scanner) == if profile.Some? then current + {f} else current - {f};
      }
    }
    forall other | other != scanner
      ensures SameFor(s, t, other)
    {
      SameButOne(s, t, scanner, other);
    }
  }

  lemma {:induction false} OnlyOneFunctionPerIndex(f: Function, index: nat)
    requires f.ButtonIndex() == index
    ensures forall g: Function :: g.ButtonIndex() == index ==> g == f
  {
  }

  lemma {:induction false} RoundSucceeds(s: State, scanner: Scanner, functions: set<Function>, net: Network)
    ensures scanner in s.devices && functions != {} ==>
              (RegisterStep(s, scanner, functions, net).1.Ok? <==> net.Takes(s.devices[scanner], functions))
  {
  }

  /** The call succeeds exactly when the key exists and the printer takes the whole new set, if there is one. */
  lemma {:induction false} SettingAButtonSucceeds(
    s: State, scanner: Scanner, index: nat, profile: Option<Profile>, net: Network)
    ensures SetButtonStep(s, scanner, index, profile, net).1.Ok?
            <==> (index < |ALL|
                  && var f := ALL[index];
                     var current := AssignedFunctions(s.buttons, scanner);
                     var wanted := if profile.Some? then current + {f} else current - {f};
                     wanted == {} || (scanner in s.devices && net.Takes(s.devices[scanner], wanted)))
  {
    hide FirstRound;
    if index < |ALL| {
      var current := AssignedFunctions(s.buttons, scanner);
      RoundSucceeds(s, scanner, if profile.Some? then current + {ALL[index]} else current - {ALL[index]}, net);
    }
  }

  lemma {:induction false} Forgetting(s: State, scanner: Scanner)
    ensures var t := ForgetStep(s, scanner);
            && AssignedFunctions(t.buttons, scanner) == {} && Kept(t, scanner) == {}
            && (forall other | other != scanner :: SameFor(s, t, other))
  {
  }

  datatype Action =
    | SetButton(scanner: Scanner, index: nat, profile: Option<Profile>, net: Network)
    | Forget(scanner: Scanner)
    | NoteDevice(scanner: Scanner, device: Option<Address>)

  function Apply(s: State, action: Action): State {
    match action
    case SetButton(scanner, index, profile, net) => SetButtonStep(s, scanner, index, profile, net).0
    case Forget(scanner) => ForgetStep(s, scanner)
    case NoteDevice(scanner, device) => NoteDeviceStep(s, scanner, device)
  }

  function Run(s: State, actions: seq<Action>): State
    decreases |actions|
  {
    if |actions| == 0 then s else Run(Apply(s, actions[0]), actions[1..])
  }

  lemma {:induction false} OneActionKeepsAgreement(s: State, action: Action)
    requires Agrees(s)
    ensures Agrees(Apply(s, action))
    ensures forall other | !action.NoteDevice? && other != action.scanner :: SameFor(s, Apply(s, action), other)
  {
    hide AgreesFor, SetButtonStep;
    var t := Apply(s, action);
    match action {
      case SetButton(scanner, index, profile, net) =>
        SettingAButton(s, scanner, index, profile, net);
        forall other
          ensures AgreesFor(t, other)
        {
          if other != scanner { SameAgrees(s, t, other); }
        }
        IndicesStayOnThePanel(s, scanner, index, profile, net);
      case Forget(scanner) =>
        Forgetting(s, scanner);
        forall other
          ensures AgreesFor(t, other)
        {
          if other != scanner { SameAgrees(s, t, other); } else { NothingKept(t, other); }
        }
      case NoteDevice(_, _) =>
        forall other
          ensures AgreesFor(t, other)
        {
          SameAgrees(s, t, other);
        }
    }
  }

  lemma {:induction false} NothingKept(t: State, scanner: Scanner)
    requires scanner !in t.registrars
    ensures AgreesFor(t, scanner)
  {
  }

  lemma {:induction false} IndicesStayOnThePanel(
    s: State, scanner: Scanner, index: nat, profile: Option<Profile>, net: Network)
    requires forall key | key in s.buttons :: key.1 < |ALL|
    ensures forall key | key in SetButtonStep(s, scanner, index, profile, net).0.buttons :: key.1 < |ALL|
  {
    hide FirstRound;
  }

  /** Panel and assignments agree after every run, whatever the printers answered along the way. */
  lemma {:induction false} PanelsAgreeInEveryRun(s: State, actions: seq<Action>)
    requires Agrees(s)
    ensures Agrees(Run(s, actions))
    decreases |actions|
  {
    hide Agrees, Apply;
    if |actions| > 0 {
      OneActionKeepsAgreement(s, actions[0]);
      PanelsAgreeInEveryRun(Apply(s, actions[0]), actions[1..]);
    }
  }

  lemma {:induction false} OthersLeaveItAlone(s: State, actions: seq<Action>, scanner: Scanner)
    requires Agrees(s) && forall i | 0 <= i < |actions| :: actions[i].NoteDevice? || actions[i].scanner != scanner
    ensures SameFor(s, Run(s, actions), scanner)
    decreases |actions|
  {
    hide Agrees, Apply;
    if |actions| > 0 {
      OneActionKeepsAgreement(s, actions[0]);
      if actions[0].NoteDevice? { SameAfterNote(s, actions[0], scanner); }
      OthersLeaveItAlone(Apply(s, actions[0]), actions[1..], scanner);
      SameTwice(s, Apply(s, actions[0]), Run(s, actions), scanner);
    }
  }

  lemma {:induction false} SameTwice(s: State, t: State, u: State, scanner: Scanner)
    requires SameFor(s, t, scanner) && SameFor(t, u, scanner)
    ensures SameFor(s, u, scanner)
  {
  }

  lemma {:induction false} SameAfterNote(s: State, action: Action, scanner: Scanner)
    requires action.NoteDevice?
    ensures SameFor(s, Apply(s, action), scanner)
  {
  }

  /** After an unpairing, the first key assigned is the only one that comes back. */
  lemma {:induction false} OldKeysDoNotRideAlong(
    s: State, scanner: Scanner, meanwhile: seq<Action>, index: nat, profile: Profile, net: Network)
    requires Agrees(s)
    requires forall i | 0 <= i < |meanwhile| :: meanwhile[i].NoteDevice? || meanwhile[i].scanner != scanner
    ensures var t := Run(ForgetStep(s, scanner), meanwhile);
            var done := SetButtonStep(t, scanner, index, Some(profile), net);
            done.1.Ok? ==> index < |ALL| && Kept(done.0, scanner) == {ALL[index]}
  {
    hide Agrees, SetButtonStep, Run;
    Forgetting(s, scanner);
    OneActionKeepsAgreement(s, Forget(scanner));
    var forgotten := ForgetStep(s, scanner);
    OthersLeaveItAlone(forgotten, meanwhile, scanner);
    PanelsAgreeInEveryRun(forgotten, meanwhile);
    var t := Run(forgotten, meanwhile);
    SettingAButton(t, scanner, index, Some(profile), net);
    var u := SetButtonStep(t, scanner, index, Some(profile), net).0;
    if SetButtonStep(t, scanner, index, Some(profile), net).1.Ok? {
      OnlyOneFunctionPerIndex(ALL[index], index);
      assert AssignedFunctions(u.buttons, scanner) == {ALL[index]};
    }
  }
}
