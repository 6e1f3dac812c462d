/** The emulator's main console activity (activity/main_activity.go): the
    command words that flip the emulated faults, heal the API and set the
    hardware delay multiplier, and the help tree that describes them. */
module Activity {
  import opened Common
  import opened Console
  import opened Completer
  import opened Emulation
  import opened Api

  /** A request the activity makes of the controller. */
  datatype CtlCall =
    | ToggleHardware
    | ToggleNetwork
    | ToggleStorageAccess
    | ToggleStorageRoom
    | ToggleEvalRejection
    | ToggleScale
    | Heal
    | SetMult(m: real)
    | Reset

  /** The multiplier `delay` asks for: the number after the word, or 1 when
      there is none or it does not parse. */
  function DelayMult(a: Args, parseFloat: string -> Option<real>): (m: real)
    ensures 1 < a.Len() && parseFloat(a.args[1]).Some? ==> m == parseFloat(a.args[1]).value
    ensures a.Len() <= 1 || parseFloat(a.args[1]).None? ==> m == 1.0
  {
    var (v, ok) := a.Float64(1, parseFloat);
    if !ok then 1.0 else v
  }

  /** The same, through the accessor as written, whose failed parse reports
      success with 0. */
  function DelayMultAsWritten(a: Args, parseFloat: string -> Option<real>): (m: real)
    ensures a.Len() <= 1 ==> m == 1.0
    ensures 1 < a.Len() && parseFloat(a.args[1]).Some? ==> m == parseFloat(a.args[1]).value
    ensures 1 < a.Len() && parseFloat(a.args[1]).None? ==> m == 0.0
  {
    var (v, ok) := a.Float64AsWritten(1, parseFloat);
    if !ok then 1.0 else v
  }

  /** `delay abc`: as written the multiplier becomes 0 instead of the
      fallback 1. */
  lemma DelayOfNonNumberAsWritten(a: Args, parseFloat: string -> Option<real>)
    requires a == Args("delay abc", ["delay", "abc"]) && parseFloat("abc").None?
    ensures DelayMultAsWritten(a, parseFloat) == 0.0
    ensures DelayMult(a, parseFloat) == 1.0
  {
    Float64AsWrittenMisreportsFailure(a, 1, parseFloat);
  }

  /** `break <what> [<how>]`: the fault to flip, if the words name one. */
  function BreakCall(a: Args): Option<CtlCall>
  {
    var what := a.String(1).0;
    var how := a.String(2).0;
    if what == "hardware" then Some(ToggleHardware)
    else if what == "network" then Some(ToggleNetwork)
    else if what == "storage" then
      (if how == "access" then Some(ToggleStorageAccess)
       else if how == "room" then Some(ToggleStorageRoom)
       else None)
    else if what == "eval" then
      (if how == "acceptance" then Some(ToggleEvalRejection)
       else if how == "scale" then Some(ToggleScale)
       else None)
    else None
  }

  /** The controller request a command line makes, and whether the activity
      took the line. The console splits every line on spaces, so there is
      always a first word. A line is taken exactly when it makes a request,
      and only the four command words make one. */
  function Dispatch(a: Args, parseFloat: string -> Option<real>): (r: (Option<CtlCall>, bool))
    requires a.Len() > 0
    ensures r.1 <==> r.0.Some?
    ensures r.0.Some? ==> a.args[0] in {"break", "heal", "delay", "reset"}
  {
    var word := a.args[0];
    if word == "break" then
      var call := BreakCall(a);
      (call, call.Some?)
    else if word == "heal" then (Some(Heal), true)
    else if word == "delay" then (Some(SetMult(DelayMult(a, parseFloat))), true)
    else if word == "reset" then (Some(Reset), true)
    else (None, false)
  }

  /** Which words flip which fault, in both directions. */
  lemma BreakWords(a: Args, parseFloat: string -> Option<real>)
    requires a.Len() > 0
    ensures var call := Dispatch(a, parseFloat).0;
            && (call == Some(ToggleHardware) <==> a.args[0] == "break" && a.Len() > 1 && a.args[1] == "hardware")
            && (call == Some(ToggleNetwork) <==> a.args[0] == "break" && a.Len() > 1 && a.args[1] == "network")
            && (call == Some(ToggleStorageAccess) <==>
                  a.args[0] == "break" && a.Len() > 2 && a.args[1] == "storage" && a.args[2] == "access")
            && (call == Some(ToggleStorageRoom) <==>
                  a.args[0] == "break" && a.Len() > 2 && a.args[1] == "storage" && a.args[2] == "room")
            && (call == Some(ToggleEvalRejection) <==>
                  a.args[0] == "break" && a.Len() > 2 && a.args[1] == "eval" && a.args[2] == "acceptance")
            && (call == Some(ToggleScale) <==>
                  a.args[0] == "break" && a.Len() > 2 && a.args[1] == "eval" && a.args[2] == "scale")
  {
  }

  /** `heal` and `reset` are taken whatever follows them; `delay` is taken
      with the multiplier it names or 1; any other first word is not taken. */
  lemma OtherWords(a: Args, parseFloat: string -> Option<real>)
    requires a.Len() > 0
    ensures Dispatch(a, parseFloat).0 == Some(Heal) <==> a.args[0] == "heal"
    ensures Dispatch(a, parseFloat).0 == Some(Reset) <==> a.args[0] == "reset"
    ensures Dispatch(a, parseFloat).0.Some? && Dispatch(a, parseFloat).0.value.SetMult? <==> a.args[0] == "delay"
    ensures a.args[0] == "delay" ==> Dispatch(a, parseFloat).0 == Some(SetMult(DelayMult(a, parseFloat)))
    ensures a.args[0] !in {"break", "heal", "delay", "reset"} ==> Dispatch(a, parseFloat) == (None, false)
  {
  }

  /** The knobs of the controller the activity turns. */
  datatype Knobs = Knobs(mult: nat, broken: int, hardware: int, network: int,
                         noRoom: int, accessForbidden: int, reject: int, unstable: int)

  predicate KnobsValid(k: Knobs)
  {
    && k.mult <= 10 * HwBusinessMultDivider
    && IsFlag(k.broken) && IsFlag(k.hardware) && IsFlag(k.network) && IsFlag(k.noRoom)
    && IsFlag(k.accessForbidden) && IsFlag(k.reject) && IsFlag(k.unstable)
  }

  /** The knobs after a request. Reset leaves them as they are: the
      controller's ResetAPI is not part of this model. */
  function Apply(k: Knobs, call: CtlCall): (k': Knobs)
    requires KnobsValid(k)
    ensures KnobsValid(k')
  {
    match call
    case ToggleHardware => k.(hardware := 1 - k.hardware)
    case ToggleNetwork => k.(network := 1 - k.network)
    case ToggleStorageAccess => k.(accessForbidden := 1 - k.accessForbidden)
    case ToggleStorageRoom => k.(noRoom := 1 - k.noRoom)
    case ToggleEvalRejection => k.(reject := 1 - k.reject)
    case ToggleScale => k.(unstable := 1 - k.unstable)
    case Heal => k.(broken := 0, hardware := 0, network := 0, noRoom := 0, accessForbidden := 0, reject := 0, unstable := 0)
    case SetMult(m) => k.(mult := ScaledMult(m))
    case Reset => k
  }

  predicate IsToggle(call: CtlCall)
  {
    call.ToggleHardware? || call.ToggleNetwork? || call.ToggleStorageAccess? || call.ToggleStorageRoom?
    || call.ToggleEvalRejection? || call.ToggleScale?
  }

  /** Giving the same `break` command twice restores every knob. */
  lemma ToggleTwiceRestores(k: Knobs, call: CtlCall)
    requires KnobsValid(k) && IsToggle(call)
    ensures Apply(Apply(k, call), call) == k
  {
  }

  /** A toggle changes its own flag and no other knob. */
  lemma ToggleChangesOneFlag(k: Knobs, call: CtlCall)
    requires KnobsValid(k) && IsToggle(call)
    ensures var k' := Apply(k, call);
            && k'.mult == k.mult && k'.broken == k.broken
            && (k'.hardware != k.hardware <==> call.ToggleHardware?)
            && (k'.network != k.network <==> call.ToggleNetwork?)
            && (k'.accessForbidden != k.accessForbidden <==> call.ToggleStorageAccess?)
            && (k'.noRoom != k.noRoom <==> call.ToggleStorageRoom?)
            && (k'.reject != k.reject <==> call.ToggleEvalRejection?)
            && (k'.unstable != k.unstable <==> call.ToggleScale?)
  {
  }

  /** After `heal` no fault is emulated and the multiplier is kept; healing
      again changes nothing. */
  lemma HealClearsFaults(k: Knobs)
    requires KnobsValid(k)
    ensures var h := Apply(k, Heal);
            && h.broken == 0 && h.hardware == 0 && h.network == 0 && h.noRoom == 0
            && h.accessForbidden == 0 && h.reject == 0 && h.unstable == 0
            && h.mult == k.mult
            && Apply(h, Heal) == h
  {
  }

  /** The help lines of the activity's commands, in the order the help
      shows them. */
  function MainCompleter(): (nodes: seq<Node>)
    ensures |nodes| == 4 && |nodes[0].children| == 4
    ensures forall k :: 0 <= k < |nodes| ==> !nodes[k].nohelp && !nodes[k].separator
  {
    [ DPCItem("break", "Toggle terminal emulation features:",
        [ DPCItem("hardware", "Emulate critical hardware failures", []),
          DPCItem("network", "Emulate network outage", []),
          DPCItem("storage", "Storage features:",
            [ DPCItem("access", "Emulate storage access prohibition", []),
              DPCItem("room", "Emulate lack of storage room", []) ]),
          DPCItem("eval", "Evaluation features:",
            [ DPCItem("acceptance", "Emulate an evaluating item rejection", []),
              DPCItem("scale", "Emulate a mechanical vibration affecting weighing process", []) ]) ]),
      DPCItem("delay", "Set hardware business delay multiplier [0.0,10.0]", []),
      DPCItem("heal", "Set API fully healthy", []),
      DPCItem("reset", "Reset API to initial state", []) ]
  }

  /** The console's main activity, holding the controller it drives. */
  class Main {
    const ctl: Controller

    constructor (c: Controller)
      ensures ctl == c
    {
      ctl := c;
    }

    ghost function KnobsNow(): Knobs
      reads this, ctl
    {
      Knobs(ctl.hwBusinessMult, ctl.flagModuleBroken, ctl.flagHardwareFailure, ctl.flagNetworkFailure,
            ctl.flagStorageNoRoom, ctl.flagStorageAccessForbidden, ctl.flagRejectEval, ctl.flagUnstableScale)
    }

    /** Runs one command line against the controller; reports whether the
        activity took it. */
    method Command(a: Args, parseFloat: string -> Option<real>) returns (taken: bool)
      requires ctl.Valid() && a.Len() > 0
      modifies ctl`hwBusinessMult, ctl`flagModuleBroken, ctl`flagHardwareFailure, ctl`flagNetworkFailure,
               ctl`flagStorageNoRoom, ctl`flagStorageAccessForbidden, ctl`flagRejectEval, ctl`flagUnstableScale
      ensures ctl.Valid() && KnobsValid(KnobsNow())
      ensures taken == Dispatch(a, parseFloat).1
      ensures var call := Dispatch(a, parseFloat).0;
              KnobsNow() == if call.Some? then Apply(old(KnobsNow()), call.value) else old(KnobsNow())
    {
      var word := a.args[0];
      if word == "break" {
        var (what, _) := a.String(1);
        if what == "hardware" {
          var on := ctl.ToggleFailOnHardwareAccess();
          return true;
        } else if what == "network" {
          var on := ctl.ToggleFailOnNetworkAccess();
          return true;
        } else if what == "storage" {
          var (how, _) := a.String(2);
          if how == "access" {
            var on := ctl.ToggleFailOnStorageAccess();
            return true;
          } else if how == "room" {
            var on := ctl.ToggleFailOnStorageRoomCheck();
            return true;
          }
        } else if what == "eval" {
          var (how, _) := a.String(2);
          if how == "acceptance" {
            var on := ctl.ToggleEvalRejection();
            return true;
          } else if how == "scale" {
            var on := ctl.ToggleWeighingScaleUnstable();
            return true;
          }
        }
      } else if word == "heal" {
        ctl.HealAPI();
        return true;
      } else if word == "delay" {
        var (v, ok) := a.Float64(1, parseFloat);
        if !ok {
          ctl.SetHardwareBusinessMult(1.0);
        } else {
          ctl.SetHardwareBusinessMult(v);
        }
        return true;
      } else if word == "reset" {
        return true;
      }
      return false;
    }
  }
}
