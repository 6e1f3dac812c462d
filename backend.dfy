/** The backend connector (terminal/cmd/api-emulator/backend): the Backender
    interface the controller delegates to, and its in-memory mock. */
module Backend {
  import opened Common
  import opened Fineness

  /** A JSON object passed through unchanged; values are kept in rendered form. */
  type Body = map<string, string>

  /** The backend's verdict on an evaluation. */
  datatype ResultFineness = ResultFineness(
    alloy: string,
    purity: real,
    millesimal: int,
    carat: string,
    confidence: real,
    risky: bool)

  const ZeroFineness := ResultFineness("", 0.0, 0, "", 0.0, false)

  /** One call through the Backender interface: its arguments and its reply. */
  datatype Exchange =
    | OccupiedCellsCall(domains: map<string, seq<string>>, err: Option<string>)
    | NewEvalCall(id: nat, err: Option<string>)
    | EvaluateSpectrumCall(evalID: nat, spectrum: map<string, real>,
                           result: ResultFineness, rejected: bool, err: Option<string>)
    | EvaluateHydroCall(evalID: nat, dry: real, wet: real, rejected: bool, err: Option<string>)
    | FinalizeEvaluationCall(evalID: nat, result: ResultFineness, rejected: bool, err: Option<string>)
    | OccupyStorageCellCall(domain: string, cell: string, tx: string,
                            forbidden: bool, reason: string, err: Option<string>)
    | ReleaseStorageCellCall(domain: string, cell: string, tx: string, strict: bool,
                             forbidden: bool, reason: string, err: Option<string>)
    | IntegrationUIMethodCall(methodName: string, body: Body, response: Body, status: int, err: Option<string>)

  predicate NoDuplicates(s: seq<string>) {
    forall i, j :: 0 <= i < j < |s| ==> s[i] != s[j]
  }

  /** `domains` lists every occupied cell exactly once, under the domain that
      occupies it, and lists nothing else. */
  ghost predicate ListsOccupancy(occupied: map<string, string>, domains: map<string, seq<string>>)
  {
    && (forall d :: d in domains <==> d in occupied.Values)
    && (forall d, c :: d in domains ==> (c in domains[d] <==> c in occupied && occupied[c] == d))
    && (forall d :: d in domains ==> NoDuplicates(domains[d]))
  }

  /** `domains` lists the cells of `done`, each once, under its domain. */
  ghost predicate ListsSome(occupied: map<string, string>, done: set<string>, domains: map<string, seq<string>>)
    requires done <= occupied.Keys
  {
    && (forall d :: d in domains ==> exists c :: c in done && occupied[c] == d)
    && (forall d, c :: d in domains ==> (c in domains[d] <==> c in done && occupied[c] == d))
    && (forall c :: c in done ==> occupied[c] in domains)
    && (forall d :: d in domains ==> NoDuplicates(domains[d]))
  }

  /** Appending one more cell to its domain's list keeps the listing exact. */
  lemma ListsOneMore(occupied: map<string, string>, done: set<string>, domains: map<string, seq<string>>, cell: string)
    requires done <= occupied.Keys && cell in occupied && cell !in done
    requires ListsSome(occupied, done, domains)
    ensures var listed := if occupied[cell] in domains then domains[occupied[cell]] else [];
            ListsSome(occupied, done + {cell}, domains[occupied[cell] := listed + [cell]])
  {
    var domain := occupied[cell];
    var listed := if domain in domains then domains[domain] else [];
    var next := domains[domain := listed + [cell]];
    assert cell !in listed;
    forall d | d in next
      ensures exists c :: c in done + {cell} && occupied[c] == d
    {
      if d != domain {
        var c :| c in done && occupied[c] == d;
        assert c in done + {cell};
      } else {
        assert cell in done + {cell};
      }
    }
  }

  /** Once every cell is done, the listing is the whole occupancy. */
  lemma ListsAll(occupied: map<string, string>, domains: map<string, seq<string>>)
    requires ListsSome(occupied, occupied.Keys, domains)
    ensures ListsOccupancy(occupied, domains)
  {
    forall d
      ensures d in domains <==> d in occupied.Values
    {
      if d in occupied.Values {
        var c :| c in occupied && occupied[c] == d;
      }
    }
  }

  /** The mock's answer to an occupation or release request. */
  datatype Verdict = Granted | Refused(reason: string)

  function OccupyVerdict(occupied: map<string, string>, cell: string): (v: Verdict)
    ensures v.Refused? <==> cell in occupied
  {
    if cell in occupied then Refused("already occupied") else Granted
  }

  function ReleaseVerdict(occupied: map<string, string>, domain: string, cell: string, strict: bool): (v: Verdict)
    ensures v == Granted <==> cell in occupied && (!strict || occupied[cell] == domain)
  {
    if cell !in occupied then Refused("not occupied")
    else if strict && domain != occupied[cell] then Refused("cell is occupied under another domain")
    else Granted
  }

  /** The occupancy table after a request with the given verdict. */
  function AfterOccupy(occupied: map<string, string>, domain: string, cell: string): map<string, string>
  {
    if OccupyVerdict(occupied, cell) == Granted then occupied[cell := domain] else occupied
  }

  function AfterRelease(occupied: map<string, string>, domain: string, cell: string, strict: bool): map<string, string>
  {
    if ReleaseVerdict(occupied, domain, cell, strict) == Granted then occupied - {cell} else occupied
  }

  /** The three refusals are told apart by their reasons. */
  lemma RefusalReasonsDistinct(occupied: map<string, string>, domain: string, cell: string, strict: bool)
    ensures OccupyVerdict(occupied, cell).Refused? ==> OccupyVerdict(occupied, cell).reason == "already occupied"
    ensures ReleaseVerdict(occupied, domain, cell, strict).Refused? ==>
              (cell !in occupied <==> ReleaseVerdict(occupied, domain, cell, strict).reason == "not occupied")
  {
  }

  /** Occupying a free cell and then releasing it restores the table, whatever
      domain the release names when the check is not strict. */
  lemma OccupyThenReleaseRestores(occupied: map<string, string>, domain: string, other: string, cell: string, strict: bool)
    requires cell !in occupied
    requires strict ==> other == domain
    ensures ReleaseVerdict(AfterOccupy(occupied, domain, cell), other, cell, strict) == Granted
    ensures AfterRelease(AfterOccupy(occupied, domain, cell), other, cell, strict) == occupied
  {
    assert occupied[cell := domain] - {cell} == occupied;
  }

  /** A non-strict release does not look at the domain. */
  lemma NonStrictReleaseIgnoresDomain(occupied: map<string, string>, d1: string, d2: string, cell: string)
    ensures ReleaseVerdict(occupied, d1, cell, false) == ReleaseVerdict(occupied, d2, cell, false)
    ensures AfterRelease(occupied, d1, cell, false) == AfterRelease(occupied, d2, cell, false)
  {
  }

  /** The deterministic in-memory backend (mock_client.go). */
  class MockClient {
    var evalCounter: nat
    var lastEval: ResultFineness
    var occupiedCells: map<string, string>

    ghost predicate Valid()
      reads this
    {
      evalCounter < Uint64Modulus
    }

    constructor ()
      ensures Valid()
      ensures evalCounter == 0 && lastEval == ZeroFineness && occupiedCells == map[]
    {
      evalCounter := 0;
      lastEval := ZeroFineness;
      occupiedCells := map[];
    }

    /** Groups the occupied cells by domain, visiting the table in no
        particular order. */
    method OccupiedCells() returns (domains: map<string, seq<string>>)
      ensures ListsOccupancy(occupiedCells, domains)
    {
      domains := map[];
      var done: set<string> := {};
      while done != occupiedCells.Keys
        invariant done <= occupiedCells.Keys
        invariant ListsSome(occupiedCells, done, domains)
        decreases occupiedCells.Keys - done
      {
        assert occupiedCells.Keys - done != {};
        var cell :| cell in occupiedCells.Keys - done;
        var domain := occupiedCells[cell];
        var listed := if domain in domains then domains[domain] else [];
        ListsOneMore(occupiedCells, done, domains, cell);
        domains := domains[domain := listed + [cell]];
        done := done + {cell};
      }
      ListsAll(occupiedCells, domains);
    }

    /** Starts a new evaluation: the counter goes up by one (wrapping as a
        uint64) and its new value is the evaluation id. */
    method NewEval() returns (id: nat)
      requires Valid()
      modifies this`evalCounter
      ensures Valid()
      ensures evalCounter == (old(evalCounter) + 1) % Uint64Modulus
      ensures id == evalCounter
    {
      evalCounter := (evalCounter + 1) % Uint64Modulus;
      id := evalCounter;
    }

    /** Classifies the spectrum entry visited last (the only one when the
        spectrum has one entry) and remembers the result. Never rejects. */
    method EvaluateSpectrum(evalID: nat, spectrum: map<string, real>) returns (r: ResultFineness, rejected: bool)
      modifies this`lastEval
      ensures !rejected && r == lastEval
      ensures spectrum == map[] ==> r.alloy == "" && r.purity == 0.0
      ensures spectrum != map[] ==> r.alloy in spectrum && r.purity == spectrum[r.alloy]
      ensures r.millesimal == Millesimal(r.purity) && r.carat == Carat(r.purity)
      ensures r.confidence == 0.98 && !r.risky
    {
      var alloy, purity := "", 0.0;
      var todo := spectrum.Keys;
      while todo != {}
        invariant todo <= spectrum.Keys
        invariant todo == spectrum.Keys ==> alloy == "" && purity == 0.0
        invariant todo != spectrum.Keys ==> alloy in spectrum && purity == spectrum[alloy]
        decreases todo
      {
        var k :| k in todo;
        alloy, purity := k, spectrum[k];
        todo := todo - {k};
      }
      lastEval := ResultFineness(alloy, purity, Millesimal(purity), Carat(purity), 0.98, false);
      r, rejected := lastEval, false;
    }

    method EvaluateHydro(evalID: nat, dry: real, wet: real) returns (rejected: bool)
      ensures !rejected
    {
      rejected := false;
    }

    /** Returns the result of the last spectral evaluation, whatever the id. */
    method FinalizeEvaluation(evalID: nat) returns (r: ResultFineness, rejected: bool)
      ensures r == lastEval && !rejected
    {
      r, rejected := lastEval, false;
    }

    method OccupyStorageCell(domain: string, cell: string, tx: string) returns (forbidden: bool, reason: string)
      modifies this`occupiedCells
      ensures forbidden <==> OccupyVerdict(old(occupiedCells), cell).Refused?
      ensures forbidden ==> reason == OccupyVerdict(old(occupiedCells), cell).reason
      ensures !forbidden ==> reason == ""
      ensures occupiedCells == AfterOccupy(old(occupiedCells), domain, cell)
    {
      if cell in occupiedCells {
        forbidden, reason := true, "already occupied";
        return;
      }
      occupiedCells := occupiedCells[cell := domain];
      forbidden, reason := false, "";
    }

    method ReleaseStorageCell(domain: string, cell: string, tx: string, strict: bool) returns (forbidden: bool, reason: string)
      modifies this`occupiedCells
      ensures forbidden <==> ReleaseVerdict(old(occupiedCells), domain, cell, strict).Refused?
      ensures forbidden ==> reason == ReleaseVerdict(old(occupiedCells), domain, cell, strict).reason
      ensures !forbidden ==> reason == ""
      ensures occupiedCells == AfterRelease(old(occupiedCells), domain, cell, strict)
    {
      if cell !in occupiedCells {
        forbidden, reason := true, "not occupied";
        return;
      }
      if strict && domain != occupiedCells[cell] {
        forbidden, reason := true, "cell is occupied under another domain";
        return;
      }
      occupiedCells := occupiedCells - {cell};
      forbidden, reason := false, "";
    }

    /** Echoes the request body with HTTP status 200. */
    method IntegrationUIMethod(methodName: string, body: Body) returns (result: Body, status: int)
      ensures result == body && status == 200
    {
      result, status := body, 200;
    }
  }

  /** The Backender interface. With `mock` set it is the mock client; with
      `mock` null it is the remote gRPC client, whose replies come from the
      network and are therefore left open, except that, as every Go call in
      it does, an error comes with zero-valued results. `calls` records every
      call made through the interface together with its reply. */
  class Backender {
    const mock: MockClient?
    ghost const Repr: set<object>
    ghost var calls: seq<Exchange>

    ghost predicate Valid()
      reads this, Repr
    {
      && this in Repr
      && Repr == {this} + (if mock == null then {} else {mock})
      && (mock != null ==> mock.Valid())
    }

    constructor Mock(m: MockClient)
      requires m.Valid()
      ensures Valid() && mock == m && calls == []
    {
      mock := m;
      Repr := {this, m};
      calls := [];
    }

    constructor Remote()
      ensures Valid() && mock == null && calls == []
    {
      mock := null;
      Repr := {this};
      calls := [];
    }

    method OccupiedCells() returns (domains: map<string, seq<string>>, err: Option<string>)
      requires Valid()
      modifies this
      ensures Valid() && calls == old(calls) + [OccupiedCellsCall(domains, err)]
      ensures err.Some? ==> domains == map[]
      ensures mock != null ==> err == None && ListsOccupancy(mock.occupiedCells, domains)
    {
      if mock != null {
        domains := mock.OccupiedCells();
        err := None;
      } else {
        domains, err := *, *;
        if err.Some? { domains := map[]; }
      }
      calls := calls + [OccupiedCellsCall(domains, err)];
    }

    method NewEval() returns (id: nat, err: Option<string>)
      requires Valid()
      modifies Repr
      ensures Valid() && calls == old(calls) + [NewEvalCall(id, err)]
      ensures err.Some? ==> id == 0
      ensures mock != null ==>
                && err == None
                && mock.evalCounter == (old(mock.evalCounter) + 1) % Uint64Modulus
                && id == mock.evalCounter
                && mock.lastEval == old(mock.lastEval) && mock.occupiedCells == old(mock.occupiedCells)
    {
      if mock != null {
        id := mock.NewEval();
        err := None;
      } else {
        id, err := *, *;
        if err.Some? { id := 0; }
      }
      calls := calls + [NewEvalCall(id, err)];
    }

    method EvaluateSpectrum(evalID: nat, spectrum: map<string, real>) returns (r: ResultFineness, rejected: bool, err: Option<string>)
      requires Valid()
      modifies Repr
      ensures Valid() && calls == old(calls) + [EvaluateSpectrumCall(evalID, spectrum, r, rejected, err)]
      ensures (err.Some? || rejected) ==> r == ZeroFineness
      ensures err.Some? ==> !rejected
      ensures mock != null ==>
                && err == None && !rejected && r == mock.lastEval
                && (spectrum == map[] ==> r.alloy == "" && r.purity == 0.0)
                && (spectrum != map[] ==> r.alloy in spectrum && r.purity == spectrum[r.alloy])
                && r.millesimal == Millesimal(r.purity) && r.carat == Carat(r.purity)
                && r.confidence == 0.98 && !r.risky
                && mock.evalCounter == old(mock.evalCounter) && mock.occupiedCells == old(mock.occupiedCells)
    {
      if mock != null {
        r, rejected := mock.EvaluateSpectrum(evalID, spectrum);
        err := None;
      } else {
        r, rejected, err := *, *, *;
        if err.Some? { rejected := false; }
        if err.Some? || rejected { r := ZeroFineness; }
      }
      calls := calls + [EvaluateSpectrumCall(evalID, spectrum, r, rejected, err)];
    }

    method EvaluateHydro(evalID: nat, dry: real, wet: real) returns (rejected: bool, err: Option<string>)
      requires Valid()
      modifies this
      ensures Valid() && calls == old(calls) + [EvaluateHydroCall(evalID, dry, wet, rejected, err)]
      ensures err.Some? ==> !rejected
      ensures mock != null ==> err == None && !rejected
    {
      if mock != null {
        rejected := mock.EvaluateHydro(evalID, dry, wet);
        err := None;
      } else {
        rejected, err := *, *;
        if err.Some? { rejected := false; }
      }
      calls := calls + [EvaluateHydroCall(evalID, dry, wet, rejected, err)];
    }

    method FinalizeEvaluation(evalID: nat) returns (r: ResultFineness, rejected: bool, err: Option<string>)
      requires Valid()
      modifies this
      ensures Valid() && calls == old(calls) + [FinalizeEvaluationCall(evalID, r, rejected, err)]
      ensures (err.Some? || rejected) ==> r == ZeroFineness
      ensures err.Some? ==> !rejected
      ensures mock != null ==> err == None && !rejected && r == mock.lastEval
    {
      if mock != null {
        r, rejected := mock.FinalizeEvaluation(evalID);
        err := None;
      } else {
        r, rejected, err := *, *, *;
        if err.Some? { rejected := false; }
        if err.Some? || rejected { r := ZeroFineness; }
      }
      calls := calls + [FinalizeEvaluationCall(evalID, r, rejected, err)];
    }

    method OccupyStorageCell(domain: string, cell: string, tx: string) returns (forbidden: bool, reason: string, err: Option<string>)
      requires Valid()
      modifies Repr
      ensures Valid() && calls == old(calls) + [OccupyStorageCellCall(domain, cell, tx, forbidden, reason, err)]
      ensures err.Some? ==> !forbidden && reason == ""
      ensures mock != null ==>
                && err == None
                && (forbidden <==> OccupyVerdict(old(mock.occupiedCells), cell).Refused?)
                && (forbidden ==> reason == OccupyVerdict(old(mock.occupiedCells), cell).reason)
                && (!forbidden ==> reason == "")
                && mock.occupiedCells == AfterOccupy(old(mock.occupiedCells), domain, cell)
                && mock.evalCounter == old(mock.evalCounter) && mock.lastEval == old(mock.lastEval)
    {
      if mock != null {
        forbidden, reason := mock.OccupyStorageCell(domain, cell, tx);
        err := None;
      } else {
        forbidden, reason, err := *, *, *;
        if err.Some? { forbidden, reason := false, ""; }
      }
      calls := calls + [OccupyStorageCellCall(domain, cell, tx, forbidden, reason, err)];
    }

    method ReleaseStorageCell(domain: string, cell: string, tx: string, strict: bool) returns (forbidden: bool, reason: string, err: Option<string>)
      requires Valid()
      modifies Repr
      ensures Valid() && calls == old(calls) + [ReleaseStorageCellCall(domain, cell, tx, strict, forbidden, reason, err)]
      ensures err.Some? ==> !forbidden && reason == ""
      ensures mock != null ==>
                && err == None
                && (forbidden <==> ReleaseVerdict(old(mock.occupiedCells), domain, cell, strict).Refused?)
                && (forbidden ==> reason == ReleaseVerdict(old(mock.occupiedCells), domain, cell, strict).reason)
                && (!forbidden ==> reason == "")
                && mock.occupiedCells == AfterRelease(old(mock.occupiedCells), domain, cell, strict)
                && mock.evalCounter == old(mock.evalCounter) && mock.lastEval == old(mock.lastEval)
    {
      if mock != null {
        forbidden, reason := mock.ReleaseStorageCell(domain, cell, tx, strict);
        err := None;
      } else {
        forbidden, reason, err := *, *, *;
        if err.Some? { forbidden, reason := false, ""; }
      }
      calls := calls + [ReleaseStorageCellCall(domain, cell, tx, strict, forbidden, reason, err)];
    }

    method IntegrationUIMethod(methodName: string, body: Body) returns (result: Body, status: int, err: Option<string>)
      requires Valid()
      modifies this
      ensures Valid() && calls == old(calls) + [IntegrationUIMethodCall(methodName, body, result, status, err)]
      ensures err.Some? ==> result == map[] && status == 0
      ensures mock != null ==> err == None && result == body && status == 200
    {
      if mock != null {
        result, status := mock.IntegrationUIMethod(methodName, body);
        err := None;
      } else {
        result, status, err := *, *, *;
        if err.Some? { result, status := map[], 0; }
      }
      calls := calls + [IntegrationUIMethodCall(methodName, body, result, status, err)];
    }
  }
}
