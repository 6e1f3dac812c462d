/** Storage-cell assignment for a new evaluation (api/controller_hardwarer.go):
    the fixed cell order and the first-fit search over it. */
module CellSearch {

  /** Every storage cell, in the order in which they are offered: rows A..J,
      columns 1..9 within a row. */
  const StorageCellsOrder: seq<string> :=
    ["A1", "A2", "A3", "A4", "A5", "A6", "A7", "A8", "A9"] +
    ["B1", "B2", "B3", "B4", "B5", "B6", "B7", "B8", "B9"] +
    ["C1", "C2", "C3", "C4", "C5", "C6", "C7", "C8", "C9"] +
    ["D1", "D2", "D3", "D4", "D5", "D6", "D7", "D8", "D9"] +
    ["E1", "E2", "E3", "E4", "E5", "E6", "E7", "E8", "E9"] +
    ["F1", "F2", "F3", "F4", "F5", "F6", "F7", "F8", "F9"] +
    ["G1", "G2", "G3", "G4", "G5", "G6", "G7", "G8", "G9"] +
    ["H1", "H2", "H3", "H4", "H5", "H6", "H7", "H8", "H9"] +
    ["I1", "I2", "I3", "I4", "I5", "I6", "I7", "I8", "I9"] +
    ["J1", "J2", "J3", "J4", "J5", "J6", "J7", "J8", "J9"]

  /** There are 90 cells and every name has two characters; in particular no
      name is empty, so "" can stand for "no cell". */
  lemma StorageCellsOrderShape()
    ensures |StorageCellsOrder| == 90
    ensures forall i :: 0 <= i < 90 ==> |StorageCellsOrder[i]| == 2
  {
  }

  /** Some domain's list holds the cell. */
  predicate Occupied(domains: map<string, seq<string>>, cell: string)
  {
    exists d :: d in domains && cell in domains[d]
  }

  /** The first cell of `order` from position `i` on that no domain
      occupies, or "" when there is none. */
  function FirstFreeFrom(order: seq<string>, domains: map<string, seq<string>>, i: nat): (c: string)
    requires i <= |order|
    ensures c == "" || !Occupied(domains, c)
    decreases |order| - i
  {
    if i == |order| then ""
    else if !Occupied(domains, order[i]) then order[i]
    else FirstFreeFrom(order, domains, i + 1)
  }

  /** The cell a new evaluation gets, or "" when every cell is occupied. */
  function FirstFree(domains: map<string, seq<string>>): (c: string)
    ensures c == "" || !Occupied(domains, c)
  {
    FirstFreeFrom(StorageCellsOrder, domains, 0)
  }

  lemma {:induction false} FirstFreeFromIsFirstFit(order: seq<string>, domains: map<string, seq<string>>, i: nat)
    requires i <= |order|
    requires forall j :: 0 <= j < |order| ==> order[j] != ""
    ensures FirstFreeFrom(order, domains, i) == "" <==>
              forall j :: i <= j < |order| ==> Occupied(domains, order[j])
    ensures FirstFreeFrom(order, domains, i) != "" ==>
              exists k :: i <= k < |order| && order[k] == FirstFreeFrom(order, domains, i)
                          && !Occupied(domains, order[k])
                          && forall j :: i <= j < k ==> Occupied(domains, order[j])
    decreases |order| - i
  {
    if i < |order| {
      FirstFreeFromIsFirstFit(order, domains, i + 1);
      if Occupied(domains, order[i]) && FirstFreeFrom(order, domains, i) != "" {
        var k :| i + 1 <= k < |order| && order[k] == FirstFreeFrom(order, domains, i + 1)
                 && !Occupied(domains, order[k])
                 && forall j :: i + 1 <= j < k ==> Occupied(domains, order[j]);
        assert forall j :: i <= j < k ==> Occupied(domains, order[j]);
      }
    }
  }

  /** The assigned cell is free and every cell before it in the order is
      occupied; no cell is assigned only when all 90 are occupied. */
  lemma FirstFreeIsFirstFit(domains: map<string, seq<string>>)
    ensures FirstFree(domains) == "" <==>
              forall j :: 0 <= j < |StorageCellsOrder| ==> Occupied(domains, StorageCellsOrder[j])
    ensures FirstFree(domains) != "" ==>
              exists k :: 0 <= k < |StorageCellsOrder| && StorageCellsOrder[k] == FirstFree(domains)
                          && !Occupied(domains, StorageCellsOrder[k])
                          && forall j :: 0 <= j < k ==> Occupied(domains, StorageCellsOrder[j])
  {
    StorageCellsOrderShape();
    FirstFreeFromIsFirstFit(StorageCellsOrder, domains, 0);
  }

  /** With nothing occupied, the first cell is A1. */
  lemma FirstFreeOfNothingIsA1()
    ensures FirstFree(map[]) == "A1"
  {
    assert !Occupied(map[], StorageCellsOrder[0]);
  }

  /** The search of the source: for each cell in order, look through every
      domain's list (domains in no particular order) until the cell is found,
      and take the first cell found in none. */
  method NextFreeCell(domains: map<string, seq<string>>) returns (cell: string)
    ensures cell == FirstFree(domains)
  {
    cell := "";
    var i := 0;
    while i < |StorageCellsOrder|
      invariant 0 <= i <= |StorageCellsOrder|
      invariant FirstFreeFrom(StorageCellsOrder, domains, i) == FirstFree(domains)
    {
      var c := StorageCellsOrder[i];
      var occupied := false;
      var todo := domains.Keys;
      while todo != {}
        invariant todo <= domains.Keys
        invariant occupied ==> Occupied(domains, c)
        invariant !occupied ==> forall d :: d in domains && d !in todo ==> c !in domains[d]
        decreases todo
      {
        var d :| d in todo;
        var domainCells := domains[d];
        var j := 0;
        while j < |domainCells|
          invariant 0 <= j <= |domainCells|
          invariant occupied ==> c in domainCells
          invariant !occupied ==> c !in domainCells[..j]
        {
          if domainCells[j] == c {
            occupied := true;
            break;
          }
          j := j + 1;
        }
        if occupied {
          break;
        }
        assert domainCells[..j] == domainCells;
        todo := todo - {d};
      }
      if !occupied {
        cell := c;
        break;
      }
      i := i + 1;
    }
  }
}
