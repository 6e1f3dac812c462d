/** The emulated terminal controller (api/controller.go, api/controller_emul.go,
    api/controller_hardwarer.go): fault-injection flags, the business-delay
    multiplier, the evaluation session, and the operations that check the
    flags in a fixed order before delegating to the backend. */
module Api {
  import opened Common
  import opened Fineness
  import opened Backend
  import opened Emulation
  import opened CellSearch

  const HardwareFailureText := "emulated hardware failure"
  const NetworkFailureText := "network failure"

  /** The session of the evaluation in progress. */
  datatype EvalData = EvalData(
    evalID: nat,
    cell: string,
    spectrum: map<string, real>,
    dryWeight: real,
    wetWeight: real)

  const ZeroEvalData := EvalData(0, "", map[], 0.0, 0.0)

  /** What the spectral, hydrostatic and final steps report to the API. */
  datatype SpectralData = SpectralData(alloy: string, purity: real, millesimal: int, carat: string,
                                       spectrum: map<string, real>)
  datatype HydroData = HydroData(dryWeight: real, wetWeight: real)
  datatype FinenessData = FinenessData(alloy: string, purity: real, millesimal: int, carat: string,
                                       weight: real, confidence: real, risky: bool)

  const ZeroSpectral := SpectralData("", 0.0, 0, "", map[])
  const ZeroHydro := HydroData(0.0, 0.0)
  const ZeroFinenessData := FinenessData("", 0.0, 0, "", 0.0, 0.0, false)

  /** The RPC handle the server is given; its dispatching is not modelled. */
  class RpcHandle {
    constructor ()
    {
    }
  }

  /** How the mock classifies a spectrum: grade and carat label from the
      purity, a fixed confidence of 0.98 and never risky. */
  predicate MockClassification(r: ResultFineness) {
    r.millesimal == Millesimal(r.purity) && r.carat == Carat(r.purity) && r.confidence == 0.98 && !r.risky
  }

  predicate IsFlag(v: int) {
    v == 0 || v == 1
  }

  class Controller {
    const backend: Backender
    const rpc: RpcHandle

    /** The delay multiplier, scaled by HwBusinessMultDivider. */
    var hwBusinessMult: nat

    var flagModuleBroken: int
    var flagHardwareFailure: int
    var flagNetworkFailure: int
    var flagStorageNoRoom: int
    var flagStorageAccessForbidden: int
    var flagRejectEval: int
    var flagUnstableScale: int
    var flagEvaluationAlloySilver: int
    var flagEvaluationFinenessMillesimal: int

    var evalData: EvalData

    /** Every simulated hardware delay taken so far, in nanoseconds. */
    ghost var sleeps: seq<nat>

    ghost predicate Valid()
      reads this, backend, backend.Repr
    {
      && backend.Valid()
      && hwBusinessMult <= 10 * HwBusinessMultDivider
      && IsFlag(flagModuleBroken) && IsFlag(flagHardwareFailure) && IsFlag(flagNetworkFailure)
      && IsFlag(flagStorageNoRoom) && IsFlag(flagStorageAccessForbidden)
      && IsFlag(flagRejectEval) && IsFlag(flagUnstableScale)
    }

    /** A fresh controller: multiplier 1, every flag clear, an empty session,
        delegating to the given backend. */
    constructor (b: Backender)
      requires b.Valid()
      ensures Valid() && backend == b && fresh(rpc)
      ensures hwBusinessMult == 1 * HwBusinessMultDivider
      ensures flagModuleBroken == 0 && flagHardwareFailure == 0 && flagNetworkFailure == 0
      ensures flagStorageNoRoom == 0 && flagStorageAccessForbidden == 0
      ensures flagRejectEval == 0 && flagUnstableScale == 0
      ensures flagEvaluationAlloySilver == 0 && flagEvaluationFinenessMillesimal == 0
      ensures evalData == ZeroEvalData && sleeps == []
    {
      backend := b;
      hwBusinessMult := 1 * HwBusinessMultDivider;
      flagModuleBroken, flagHardwareFailure, flagNetworkFailure := 0, 0, 0;
      flagStorageNoRoom, flagStorageAccessForbidden := 0, 0;
      flagRejectEval, flagUnstableScale := 0, 0;
      flagEvaluationAlloySilver, flagEvaluationFinenessMillesimal := 0, 0;
      evalData := ZeroEvalData;
      sleeps := [];
      rpc := new RpcHandle();
    }

    /** The same handle on every call. */
    method RPC() returns (h: RpcHandle)
      ensures h == rpc
    {
      h := rpc;
    }

    // ---- fault flags and multiplier (controller_emul.go) ----

    /** Clears the seven fault flags and nothing else. */
    method HealAPI()
      requires Valid()
      modifies this`flagModuleBroken, this`flagHardwareFailure, this`flagNetworkFailure,
               this`flagStorageNoRoom, this`flagStorageAccessForbidden,
               this`flagRejectEval, this`flagUnstableScale
      ensures Valid()
      ensures flagModuleBroken == 0 && flagHardwareFailure == 0 && flagNetworkFailure == 0
      ensures flagStorageNoRoom == 0 && flagStorageAccessForbidden == 0
      ensures flagRejectEval == 0 && flagUnstableScale == 0
    {
      flagModuleBroken := 0;
      flagHardwareFailure := 0;
      flagNetworkFailure := 0;
      flagStorageNoRoom := 0;
      flagStorageAccessForbidden := 0;
      flagRejectEval := 0;
      flagUnstableScale := 0;
    }

    method SetHardwareBusinessMult(m: real)
      requires Valid()
      modifies this`hwBusinessMult
      ensures Valid()
      ensures hwBusinessMult == ScaledMult(m)
    {
      var clamped := m;
      if clamped < 0.0 {
        clamped := 0.0;
      }
      if clamped > MaxBusinessMult {
        clamped := MaxBusinessMult;
      }
      hwBusinessMult := Floor(HwBusinessMultDivider as real * clamped);
    }

    method ToggleFailOnHardwareAccess() returns (on: bool)
      requires Valid()
      modifies this`flagHardwareFailure
      ensures Valid() && flagHardwareFailure == 1 - old(flagHardwareFailure)
      ensures on <==> flagHardwareFailure == 1
    {
      var v := 1 - flagHardwareFailure;
      flagHardwareFailure := v;
      on := v == 1;
    }

    method ToggleFailOnNetworkAccess() returns (on: bool)
      requires Valid()
      modifies this`flagNetworkFailure
      ensures Valid() && flagNetworkFailure == 1 - old(flagNetworkFailure)
      ensures on <==> flagNetworkFailure == 1
    {
      var v := 1 - flagNetworkFailure;
      flagNetworkFailure := v;
      on := v == 1;
    }

    method ToggleFailOnStorageRoomCheck() returns (on: bool)
      requires Valid()
      modifies this`flagStorageNoRoom
      ensures Valid() && flagStorageNoRoom == 1 - old(flagStorageNoRoom)
      ensures on <==> flagStorageNoRoom == 1
    {
      var v := 1 - flagStorageNoRoom;
      flagStorageNoRoom := v;
      on := v == 1;
    }

    method ToggleFailOnStorageAccess() returns (on: bool)
      requires Valid()
      modifies this`flagStorageAccessForbidden
      ensures Valid() && flagStorageAccessForbidden == 1 - old(flagStorageAccessForbidden)
      ensures on <==> flagStorageAccessForbidden == 1
    {
      var v := 1 - flagStorageAccessForbidden;
      flagStorageAccessForbidden := v;
      on := v == 1;
    }

    method ToggleEvalRejection() returns (on: bool)
      requires Valid()
      modifies this`flagRejectEval
      ensures Valid() && flagRejectEval == 1 - old(flagRejectEval)
      ensures on <==> flagRejectEval == 1
    {
      var v := 1 - flagRejectEval;
      flagRejectEval := v;
      on := v == 1;
    }

    method ToggleWeighingScaleUnstable() returns (on: bool)
      requires Valid()
      modifies this`flagUnstableScale
      ensures Valid() && flagUnstableScale == 1 - old(flagUnstableScale)
      ensures on <==> flagUnstableScale == 1
    {
      var v := 1 - flagUnstableScale;
      flagUnstableScale := v;
      on := v == 1;
    }

    /** Takes the simulated delay of a hardware step, then fails if hardware
        failures are being emulated. */
    method AccessHardware(timeUnits: nat) returns (err: Option<string>)
      modifies this`sleeps
      ensures sleeps == old(sleeps) + [HardwareDelay(timeUnits, hwBusinessMult)]
      ensures err.Some? <==> flagHardwareFailure != 0
      ensures err.Some? ==> err.value == HardwareFailureText
    {
      sleeps := sleeps + [HardwareDelay(timeUnits, hwBusinessMult)];
      if flagHardwareFailure != 0 {
        return Some(HardwareFailureText);
      }
      err := None;
    }

    method AccessNetwork() returns (up: bool)
      ensures up <==> flagNetworkFailure == 0
    {
      up := flagNetworkFailure == 0;
    }

    /** The session generator: records the evaluation id and cell; the
        spectrum and weights it draws are left open. */
    method GenerateEvaluationData(evalID: nat, cell: string, alloy: string, fineness: int)
      modifies this`evalData
      ensures evalData.evalID == evalID && evalData.cell == cell
    {
      var spectrum: map<string, real>, dry: real, wet: real := *, *, *;
      evalData := EvalData(evalID, cell, spectrum, dry, wet);
    }

    // ---- module and hardware operations (controller_hardwarer.go) ----

    method Operational() returns (ok: bool)
      ensures ok <==> flagModuleBroken == 0
    {
      ok := flagModuleBroken == 0;
    }

    /** Latches the module-broken flag (the error is only logged). */
    method Broken(reason: string)
      requires Valid()
      modifies this`flagModuleBroken
      ensures Valid() && flagModuleBroken == 1
    {
      flagModuleBroken := 1;
    }

    method OpenInlet() returns (err: Option<string>)
      modifies this`sleeps
      ensures sleeps == old(sleeps) + [HardwareDelay(2, hwBusinessMult)]
      ensures err.Some? <==> flagHardwareFailure != 0
    {
      err := AccessHardware(2);
    }

    method CloseInlet() returns (err: Option<string>)
      modifies this`sleeps
      ensures sleeps == old(sleeps) + [HardwareDelay(2, hwBusinessMult)]
      ensures err.Some? <==> flagHardwareFailure != 0
    {
      err := AccessHardware(2);
    }

    method CloseOutlet() returns (err: Option<string>)
      modifies this`sleeps
      ensures sleeps == old(sleeps) + [HardwareDelay(4, hwBusinessMult)]
      ensures err.Some? <==> flagHardwareFailure != 0
    {
      err := AccessHardware(4);
    }

    /** All flags that NewEval consults are clear. */
    ghost predicate NewEvalClear()
      reads this
    {
      flagHardwareFailure == 0 && flagNetworkFailure == 0 && flagStorageNoRoom == 0
    }

    /** Begins an evaluation: hardware, then network, then the no-room flag;
        then asks the backend for the occupied cells, takes the first free
        cell, and asks the backend for an evaluation id. A backend error is a
        network failure; at most one failure is reported. */
    method NewEval() returns (evalID: nat, cell: string, failNet: bool, failNoRoom: bool, failHW: bool, err: Option<string>)
      requires Valid()
      modifies this`sleeps, this`evalData, backend.Repr
      ensures Valid() && err == None
      ensures sleeps == old(sleeps) + [HardwareDelay(1, hwBusinessMult)]
      ensures !(failHW && failNet) && !(failHW && failNoRoom) && !(failNet && failNoRoom)
      ensures failHW <==> flagHardwareFailure != 0
      ensures flagHardwareFailure == 0 && flagNetworkFailure != 0 ==> failNet
      ensures flagHardwareFailure == 0 && flagNetworkFailure == 0 && flagStorageNoRoom != 0 ==> failNoRoom
      ensures !NewEvalClear() ==>
                && unchanged(backend.Repr) && evalData == old(evalData) && evalID == 0 && cell == ""
      ensures NewEvalClear() ==>
                && |backend.calls| > |old(backend.calls)|
                && backend.calls[..|old(backend.calls)|] == old(backend.calls)
                && backend.calls[|old(backend.calls)|].OccupiedCellsCall?
      ensures NewEvalClear() ==>
                var n := |old(backend.calls)|;
                var occupied := backend.calls[n];
                if occupied.err.Some? then
                  failNet && |backend.calls| == n + 1 && cell == "" && evalID == 0 && evalData == old(evalData)
                else if FirstFree(occupied.domains) == "" then
                  failNoRoom && |backend.calls| == n + 1 && cell == "" && evalID == 0 && evalData == old(evalData)
                else
                  && cell == FirstFree(occupied.domains)
                  && |backend.calls| == n + 2 && backend.calls[n + 1].NewEvalCall?
                  && evalID == backend.calls[n + 1].id
                  && (failNet <==> backend.calls[n + 1].err.Some?)
                  && !failNoRoom
                  && (failNet ==> evalData == old(evalData))
                  && (!failNet ==> evalData.evalID == evalID && evalData.cell == cell)
      ensures NewEvalClear() && backend.mock != null ==>
                var n := |old(backend.calls)|;
                && backend.calls[n].err == None && !failNet
                && ListsOccupancy(old(backend.mock.occupiedCells), backend.calls[n].domains)
                && backend.mock.occupiedCells == old(backend.mock.occupiedCells)
                && backend.mock.lastEval == old(backend.mock.lastEval)
                && (cell != "" ==> evalID == (old(backend.mock.evalCounter) + 1) % Uint64Modulus
                                   && backend.mock.evalCounter == evalID)
                && (cell == "" ==> backend.mock.evalCounter == old(backend.mock.evalCounter))
    {
      evalID, cell, failNet, failNoRoom, failHW, err := 0, "", false, false, false, None;
      var hwErr := AccessHardware(1);
      if hwErr.Some? {
        failHW := true;
        return;
      }
      var up := AccessNetwork();
      if !up {
        failNet := true;
        return;
      }
      if flagStorageNoRoom != 0 {
        failNoRoom := true;
        return;
      }
      ghost var n := |backend.calls|;
      var occupied, xerr := backend.OccupiedCells();
      if xerr.Some? {
        failNet := true;
        return;
      }
      cell := NextFreeCell(occupied);
      if cell == "" {
        failNoRoom := true;
        return;
      }
      var id, xerr2 := backend.NewEval();
      evalID := id;
      assert backend.calls[n + 1] == NewEvalCall(id, xerr2);
      if xerr2.Some? {
        failNet := true;
        return;
      }
      var alloy := if flagEvaluationAlloySilver != 0 then "ag" else "au";
      GenerateEvaluationData(evalID, cell, alloy, flagEvaluationFinenessMillesimal);
    }

    /** Hardware, then network, then the rejection flag; then the backend
        evaluates the session spectrum. */
    method SpectralEval() returns (eval: SpectralData, netFail: bool, rejectedEval: bool, err: Option<string>)
      requires Valid()
      modifies this`sleeps, backend.Repr
      ensures Valid()
      ensures sleeps == old(sleeps) + [HardwareDelay(10, hwBusinessMult)]
      ensures !(netFail && rejectedEval) && (err.Some? ==> !netFail && !rejectedEval)
      ensures err.Some? <==> flagHardwareFailure != 0
      ensures err.Some? ==> err.value == HardwareFailureText
      ensures flagHardwareFailure == 0 && flagNetworkFailure != 0 ==> netFail
      ensures flagHardwareFailure == 0 && flagNetworkFailure == 0 && flagRejectEval != 0 ==> rejectedEval
      ensures flagHardwareFailure != 0 || flagNetworkFailure != 0 || flagRejectEval != 0 ==>
                unchanged(backend.Repr) && eval == ZeroSpectral
      ensures flagHardwareFailure == 0 && flagNetworkFailure == 0 && flagRejectEval == 0 ==>
                && |backend.calls| == |old(backend.calls)| + 1
                && backend.calls[..|old(backend.calls)|] == old(backend.calls)
                && var x := backend.calls[|old(backend.calls)|];
                   && x.EvaluateSpectrumCall?
                   && x.evalID == evalData.evalID && x.spectrum == evalData.spectrum
                   && (netFail <==> x.err.Some?) && (rejectedEval <==> x.rejected)
                   && eval == if netFail || rejectedEval then ZeroSpectral
                              else SpectralData(x.result.alloy, x.result.purity, x.result.millesimal,
                                                x.result.carat, evalData.spectrum)
      ensures flagHardwareFailure == 0 && flagNetworkFailure == 0 && flagRejectEval == 0 && backend.mock != null ==>
                && !netFail && !rejectedEval
                && backend.mock.lastEval == backend.calls[|old(backend.calls)|].result
                && MockClassification(backend.mock.lastEval)
                && backend.mock.occupiedCells == old(backend.mock.occupiedCells)
                && backend.mock.evalCounter == old(backend.mock.evalCounter)
    {
      eval, netFail, rejectedEval := ZeroSpectral, false, false;
      err := AccessHardware(10);
      if err.Some? {
        return;
      }
      var up := AccessNetwork();
      if !up {
        netFail := true;
        return;
      }
      if flagRejectEval != 0 {
        rejectedEval := true;
        return;
      }
      var fin, rejected, xerr := backend.EvaluateSpectrum(evalData.evalID, evalData.spectrum);
      rejectedEval := rejected;
      if xerr.Some? {
        netFail := true;
        return;
      }
      if rejectedEval {
        return;
      }
      eval := SpectralData(fin.alloy, fin.purity, fin.millesimal, fin.carat, evalData.spectrum);
    }

    /** Hardware, then the unstable-scale flag, then network, then the
        rejection flag; then the backend evaluates the session weights. */
    method HydroEval() returns (eval: HydroData, netFail: bool, rejectedEval: bool, unstableScale: bool, err: Option<string>)
      requires Valid()
      modifies this`sleeps, backend.Repr
      ensures Valid()
      ensures sleeps == old(sleeps) + [HardwareDelay(10, hwBusinessMult)]
      ensures err.Some? <==> flagHardwareFailure != 0
      ensures err.Some? ==> !netFail && !rejectedEval && !unstableScale
      ensures unstableScale <==> flagHardwareFailure == 0 && flagUnstableScale != 0
      ensures unstableScale ==> !netFail && !rejectedEval
      ensures !(netFail && rejectedEval)
      ensures flagHardwareFailure == 0 && flagUnstableScale == 0 && flagNetworkFailure != 0 ==> netFail
      ensures flagHardwareFailure == 0 && flagUnstableScale == 0 && flagNetworkFailure == 0 && flagRejectEval != 0 ==>
                rejectedEval
      ensures flagHardwareFailure != 0 || flagUnstableScale != 0 || flagNetworkFailure != 0 || flagRejectEval != 0 ==>
                unchanged(backend.Repr) && eval == ZeroHydro
      ensures flagHardwareFailure == 0 && flagUnstableScale == 0 && flagNetworkFailure == 0 && flagRejectEval == 0 ==>
                && |backend.calls| == |old(backend.calls)| + 1
                && backend.calls[..|old(backend.calls)|] == old(backend.calls)
                && var x := backend.calls[|old(backend.calls)|];
                   && x.EvaluateHydroCall?
                   && x.evalID == evalData.evalID && x.dry == evalData.dryWeight && x.wet == evalData.wetWeight
                   && (netFail <==> x.err.Some?) && (rejectedEval <==> x.rejected)
                   && eval == if netFail || rejectedEval then ZeroHydro
                              else HydroData(evalData.dryWeight, evalData.wetWeight)
      ensures backend.mock != null ==>
                && backend.mock.lastEval == old(backend.mock.lastEval)
                && backend.mock.occupiedCells == old(backend.mock.occupiedCells)
                && backend.mock.evalCounter == old(backend.mock.evalCounter)
    {
      eval, netFail, rejectedEval, unstableScale := ZeroHydro, false, false, false;
      err := AccessHardware(10);
      if err.Some? {
        return;
      }
      if flagUnstableScale != 0 {
        unstableScale := true;
        return;
      }
      var up := AccessNetwork();
      if !up {
        netFail := true;
        return;
      }
      if flagRejectEval != 0 {
        rejectedEval := true;
        return;
      }
      var rejected, xerr := backend.EvaluateHydro(evalData.evalID, evalData.dryWeight, evalData.wetWeight);
      rejectedEval := rejected;
      if xerr.Some? {
        netFail := true;
        return;
      }
      if rejectedEval {
        return;
      }
      eval := HydroData(evalData.dryWeight, evalData.wetWeight);
    }

    /** Network, then the rejection flag (no hardware step); then the backend
        gives the final verdict. The weight is the session's dry weight. */
    method FinalizeEval() returns (fineness: FinenessData, netFail: bool, rejectedEval: bool, err: Option<string>)
      requires Valid()
      modifies backend.Repr
      ensures Valid() && err == None && !(netFail && rejectedEval)
      ensures flagNetworkFailure != 0 ==> netFail
      ensures flagNetworkFailure == 0 && flagRejectEval != 0 ==> rejectedEval
      ensures flagNetworkFailure != 0 || flagRejectEval != 0 ==>
                unchanged(backend.Repr) && fineness == ZeroFinenessData
      ensures flagNetworkFailure == 0 && flagRejectEval == 0 ==>
                && |backend.calls| == |old(backend.calls)| + 1
                && backend.calls[..|old(backend.calls)|] == old(backend.calls)
                && var x := backend.calls[|old(backend.calls)|];
                   && x.FinalizeEvaluationCall? && x.evalID == evalData.evalID
                   && (netFail <==> x.err.Some?) && (rejectedEval <==> x.rejected)
                   && fineness == if netFail || rejectedEval then ZeroFinenessData
                                  else FinenessData(x.result.alloy, x.result.purity, x.result.millesimal,
                                                    x.result.carat, evalData.dryWeight,
                                                    x.result.confidence, x.result.risky)
      ensures flagNetworkFailure == 0 && flagRejectEval == 0 && backend.mock != null ==>
                && !netFail && !rejectedEval
                && backend.calls[|old(backend.calls)|].result == backend.mock.lastEval
      ensures backend.mock != null ==>
                && backend.mock.lastEval == old(backend.mock.lastEval)
                && backend.mock.occupiedCells == old(backend.mock.occupiedCells)
                && backend.mock.evalCounter == old(backend.mock.evalCounter)
    {
      fineness, netFail, rejectedEval, err := ZeroFinenessData, false, false, None;
      var up := AccessNetwork();
      if !up {
        netFail := true;
        return;
      }
      if flagRejectEval != 0 {
        rejectedEval := true;
        return;
      }
      var fin, rejected, xerr := backend.FinalizeEvaluation(evalData.evalID);
      rejectedEval := rejected;
      if xerr.Some? {
        netFail := true;
        return;
      }
      if rejectedEval {
        return;
      }
      fineness := FinenessData(fin.alloy, fin.purity, fin.millesimal, fin.carat, evalData.dryWeight,
                               fin.confidence, fin.risky);
    }

    method ReturnAfterSpectrumEval(customerChoice: bool) returns (err: Option<string>)
      modifies this`sleeps
      ensures sleeps == old(sleeps) + [HardwareDelay(6, hwBusinessMult)]
      ensures err.Some? <==> flagHardwareFailure != 0
    {
      err := AccessHardware(6);
    }

    method ReturnAfterHydroEval(customerChoice: bool) returns (err: Option<string>)
      modifies this`sleeps
      ensures sleeps == old(sleeps) + [HardwareDelay(6, hwBusinessMult)]
      ensures err.Some? <==> flagHardwareFailure != 0
    {
      err := AccessHardware(6);
    }

    /** Stores the item in the cell the session was given at NewEval. */
    method StoreAfterHydroEval() returns (cell: string, err: Option<string>)
      modifies this`sleeps
      ensures sleeps == old(sleeps) + [HardwareDelay(6, hwBusinessMult)]
      ensures err.Some? <==> flagHardwareFailure != 0
      ensures cell == if err.Some? then "" else evalData.cell
    {
      cell := "";
      err := AccessHardware(6);
      if err.Some? {
        return;
      }
      cell := evalData.cell;
    }

    method ExtractCellFromStorage(cell: string) returns (err: Option<string>)
      modifies this`sleeps
      ensures sleeps == old(sleeps) + [HardwareDelay(6, hwBusinessMult)]
      ensures err.Some? <==> flagHardwareFailure != 0
    {
      err := AccessHardware(6);
    }

    /** Network, then the access-forbidden flag, then the backend. A backend
        refusal is `forbidden` (its reason is only logged); a backend error is
        a network failure. */
    method StorageOccupyCell(cell: string, domain: string, tx: string) returns (netFail: bool, forbidden: bool, err: Option<string>)
      requires Valid()
      modifies backend.Repr
      ensures Valid() && err == None && !(netFail && forbidden)
      ensures flagNetworkFailure != 0 ==> netFail
      ensures flagNetworkFailure == 0 && flagStorageAccessForbidden != 0 ==> forbidden
      ensures flagNetworkFailure != 0 || flagStorageAccessForbidden != 0 ==> unchanged(backend.Repr)
      ensures flagNetworkFailure == 0 && flagStorageAccessForbidden == 0 ==>
                && |backend.calls| == |old(backend.calls)| + 1
                && backend.calls[..|old(backend.calls)|] == old(backend.calls)
                && var x := backend.calls[|old(backend.calls)|];
                   && x.OccupyStorageCellCall? && x.domain == domain && x.cell == cell && x.tx == tx
                   && (netFail <==> x.err.Some?) && (forbidden <==> x.forbidden)
      ensures flagNetworkFailure == 0 && flagStorageAccessForbidden == 0 && backend.mock != null ==>
                && !netFail && (forbidden <==> OccupyVerdict(old(backend.mock.occupiedCells), cell).Refused?)
                && backend.mock.occupiedCells == AfterOccupy(old(backend.mock.occupiedCells), domain, cell)
                && backend.mock.evalCounter == old(backend.mock.evalCounter) && backend.mock.lastEval == old(backend.mock.lastEval)
    {
      netFail, forbidden, err := false, false, None;
      var up := AccessNetwork();
      if !up {
        netFail := true;
        return;
      }
      if flagStorageAccessForbidden != 0 {
        forbidden := true;
        return;
      }
      var refused, reason, xerr := backend.OccupyStorageCell(domain, cell, tx);
      forbidden := refused;
      if xerr.Some? {
        netFail := true;
        return;
      }
    }

    /** As StorageOccupyCell, releasing without the strict domain check. */
    method StorageReleaseCell(cell: string, domain: string, tx: string) returns (netFail: bool, forbidden: bool, err: Option<string>)
      requires Valid()
      modifies backend.Repr
      ensures Valid() && err == None && !(netFail && forbidden)
      ensures flagNetworkFailure != 0 ==> netFail
      ensures flagNetworkFailure == 0 && flagStorageAccessForbidden != 0 ==> forbidden
      ensures flagNetworkFailure != 0 || flagStorageAccessForbidden != 0 ==> unchanged(backend.Repr)
      ensures flagNetworkFailure == 0 && flagStorageAccessForbidden == 0 ==>
                && |backend.calls| == |old(backend.calls)| + 1
                && backend.calls[..|old(backend.calls)|] == old(backend.calls)
                && var x := backend.calls[|old(backend.calls)|];
                   && x.ReleaseStorageCellCall? && x.domain == domain && x.cell == cell && x.tx == tx && !x.strict
                   && (netFail <==> x.err.Some?) && (forbidden <==> x.forbidden)
      ensures flagNetworkFailure == 0 && flagStorageAccessForbidden == 0 && backend.mock != null ==>
                && !netFail && (forbidden <==> ReleaseVerdict(old(backend.mock.occupiedCells), domain, cell, false).Refused?)
                && backend.mock.occupiedCells == AfterRelease(old(backend.mock.occupiedCells), domain, cell, false)
                && backend.mock.evalCounter == old(backend.mock.evalCounter) && backend.mock.lastEval == old(backend.mock.lastEval)
    {
      netFail, forbidden, err := false, false, None;
      var up := AccessNetwork();
      if !up {
        netFail := true;
        return;
      }
      if flagStorageAccessForbidden != 0 {
        forbidden := true;
        return;
      }
      var refused, reason, xerr := backend.ReleaseStorageCell(domain, cell, tx, false);
      forbidden := refused;
      if xerr.Some? {
        netFail := true;
        return;
      }
    }

    /** Network, then an opaque pass-through to the backend. */
    method IntegrationUIMethod(methodName: string, body: Body) returns (httpStatus: int, response: Body, err: Option<string>)
      requires Valid()
      modifies backend
      ensures Valid()
      ensures err.Some? ==> httpStatus == 0 && response == map[]
      ensures flagNetworkFailure != 0 ==>
                && err == Some(NetworkFailureText) && httpStatus == 0 && response == map[]
                && unchanged(backend)
      ensures flagNetworkFailure == 0 ==>
                && |backend.calls| == |old(backend.calls)| + 1
                && backend.calls[..|old(backend.calls)|] == old(backend.calls)
                && var x := backend.calls[|old(backend.calls)|];
                   && x == IntegrationUIMethodCall(methodName, body, response, httpStatus, err)
    {
      httpStatus, response, err := 0, map[], None;
      var up := AccessNetwork();
      if !up {
        err := Some(NetworkFailureText);
        return;
      }
      response, httpStatus, err := backend.IntegrationUIMethod(methodName, body);
    }

    method OptionalHardwareHealthcheck() returns (health: map<string, bool>, err: Option<string>)
      ensures health == map["my-pos-terminal" := true, "my-printer" := true] && err == None
    {
      health := map["my-pos-terminal" := true, "my-printer" := true];
      err := None;
    }

    /** A hardware step of 3 units; on failure the error text is reported as
        the sub-error, otherwise the request is echoed. */
    method OptionalHardwareRPC(moduleName: string, methodName: string, request: Body) returns (result: Body, subError: string, err: Option<string>)
      modifies this`sleeps
      ensures sleeps == old(sleeps) + [HardwareDelay(3, hwBusinessMult)]
      ensures err == None
      ensures flagHardwareFailure != 0 ==> subError == HardwareFailureText && result == map[]
      ensures flagHardwareFailure == 0 ==> subError == "" && result == request
    {
      result, subError, err := map[], "", None;
      var xerr := AccessHardware(3);
      if xerr.Some? {
        subError := xerr.value;
        return;
      }
      result := request;
    }

    method InternetConnectivity() returns (ok: bool)
      ensures ok <==> flagNetworkFailure == 0
    {
      ok := AccessNetwork();
    }

    /** The emulated terminal always has a storage, and a positional one:
        this one answer stands for both `HasStorage` and
        `HasPositionalStorage`. */
    method HasStorage() returns (ok: bool)
      ensures ok
    {
      ok := true;
    }
  }
}
