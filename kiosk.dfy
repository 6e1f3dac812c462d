/** The emulated terminal wired to the mock backend, as the emulator runs when
    no backend is configured: properties that span the controller, the mock
    client and the cell search, and whole request sequences against a fresh
    mock. */
module Kiosk {
  import opened Common
  import opened Fineness
  import opened Backend
  import opened CellSearch
  import opened Api

  /** The mock's grouping of its table marks a cell occupied exactly when the
      table holds it. */
  lemma {:induction false} ListedOccupancyAgrees(table: map<string, string>, domains: map<string, seq<string>>)
    requires ListsOccupancy(table, domains)
    ensures forall c :: Occupied(domains, c) <==> c in table
  {
    forall c
      ensures Occupied(domains, c) <==> c in table
    {
      if c in table {
        var d := table[c];
        assert d in table.Values;
        assert c in domains[d];
      }
    }
  }

  /** The cell a new evaluation gets from the mock is the first cell of the
      order absent from the mock's table; none is given only when all 90 are
      in the table. */
  lemma NewEvalCellIsFirstUnoccupied(table: map<string, string>, domains: map<string, seq<string>>)
    requires ListsOccupancy(table, domains)
    ensures FirstFree(domains) == "" <==>
              forall j :: 0 <= j < |StorageCellsOrder| ==> StorageCellsOrder[j] in table
    ensures FirstFree(domains) != "" ==>
              exists k :: 0 <= k < |StorageCellsOrder| && StorageCellsOrder[k] == FirstFree(domains)
                          && StorageCellsOrder[k] !in table
                          && forall j :: 0 <= j < k ==> StorageCellsOrder[j] in table
  {
    ListedOccupancyAgrees(table, domains);
    FirstFreeIsFirstFit(domains);
  }

  /** An empty table is grouped into no domains at all. */
  lemma EmptyTableListsNothing(domains: map<string, seq<string>>)
    requires ListsOccupancy(map[], domains)
    ensures domains == map[]
  {
    assert forall d :: d !in domains;
  }

  /** Against a fresh mock, the first evaluation gets id 1 and cell A1, and so
      does nothing else change the cell: NewEval never occupies it, so the
      second evaluation gets id 2 and again A1. */
  method TwoEvaluationsOnFreshMock() returns (firstID: nat, firstCell: string, secondID: nat, secondCell: string)
    ensures firstID == 1 && firstCell == "A1"
    ensures secondID == 2 && secondCell == "A1"
  {
    var mock := new MockClient();
    var backend := new Backender.Mock(mock);
    var ctl := new Controller(backend);
    var failNet, failNoRoom, failHW, err;
    FirstFreeOfNothingIsA1();

    firstID, firstCell, failNet, failNoRoom, failHW, err := ctl.NewEval();
    EmptyTableListsNothing(backend.calls[0].domains);

    ghost var n := |backend.calls|;
    secondID, secondCell, failNet, failNoRoom, failHW, err := ctl.NewEval();
    EmptyTableListsNothing(backend.calls[n].domains);
  }

  /** With network failures toggled on, NewEval reports a network failure
      and leaves the backend alone: no call is logged and the mock's counter
      does not move. */
  method NetworkDownSkipsBackend() returns (failNet: bool, cell: string, counter: nat)
    ensures failNet && cell == "" && counter == 0
  {
    var mock := new MockClient();
    var backend := new Backender.Mock(mock);
    var ctl := new Controller(backend);
    var on := ctl.ToggleFailOnNetworkAccess();
    var evalID, failNoRoom, failHW, err;
    evalID, cell, failNet, failNoRoom, failHW, err := ctl.NewEval();
    assert backend.calls == [];
    counter := mock.evalCounter;
  }

  /** With hardware failures toggled on, NewEval reports only the hardware
      failure; healing the API makes the next NewEval succeed with cell A1. */
  method HealRestoresNewEval() returns (brokenHW: bool, healedCell: string, healedHW: bool)
    ensures brokenHW && healedCell == "A1" && !healedHW
  {
    var mock := new MockClient();
    var backend := new Backender.Mock(mock);
    var ctl := new Controller(backend);
    var on := ctl.ToggleFailOnHardwareAccess();
    var evalID, cell, failNet, failNoRoom, err;
    evalID, cell, failNet, failNoRoom, brokenHW, err := ctl.NewEval();
    ctl.HealAPI();
    FirstFreeOfNothingIsA1();
    ghost var n := |backend.calls|;
    evalID, healedCell, failNet, failNoRoom, healedHW, err := ctl.NewEval();
    EmptyTableListsNothing(backend.calls[n].domains);
  }

  /** Occupying a cell is granted once and refused the second time; the
      non-strict release is granted whatever the domain, and afterwards the
      cell is offered to a new evaluation again. */
  method OccupyReleaseOnMock() returns (first: bool, second: bool, released: bool, cellAfter: string)
    ensures !first && second && !released && cellAfter == "A1"
  {
    var mock := new MockClient();
    var backend := new Backender.Mock(mock);
    var ctl := new Controller(backend);
    var netFail, err;
    netFail, first, err := ctl.StorageOccupyCell("A1", "collector", "tx-1");
    netFail, second, err := ctl.StorageOccupyCell("A1", "collector", "tx-2");
    netFail, released, err := ctl.StorageReleaseCell("A1", "another-domain", "tx-3");
    assert mock.occupiedCells == map[];
    FirstFreeOfNothingIsA1();
    var evalID, failNoRoom, failHW;
    ghost var n := |backend.calls|;
    evalID, cellAfter, netFail, failNoRoom, failHW, err := ctl.NewEval();
    EmptyTableListsNothing(backend.calls[n].domains);
  }

  /** A whole evaluation against the mock: the final verdict repeats the
      spectral one, its grade and carat label are those of its purity, and
      the mock reports a confidence of 0.98 and no risk. */
  method FullEvaluationOnMock() returns (spectral: SpectralData, fineness: FinenessData)
    ensures fineness.alloy == spectral.alloy && fineness.purity == spectral.purity
    ensures fineness.millesimal == Millesimal(fineness.purity) && fineness.carat == Carat(fineness.purity)
    ensures fineness.confidence == 0.98 && !fineness.risky
  {
    var mock := new MockClient();
    var backend := new Backender.Mock(mock);
    var ctl := new Controller(backend);
    var evalID, cell, failNet, failNoRoom, failHW, err := ctl.NewEval();
    var netFail, rejected, unstable;
    spectral, netFail, rejected, err := ctl.SpectralEval();
    var hydro;
    hydro, netFail, rejected, unstable, err := ctl.HydroEval();
    fineness, netFail, rejected, err := ctl.FinalizeEval();
  }
}
