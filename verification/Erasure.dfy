/** What a receiver asks of an erasure code: enough symbols of a column determine it. */
module Erasure {
  import opened Bits

  /** A systematic code for columns of bytes (column, parity symbols, index), and what solves it from any of its
      symbols (the known ones, data symbols, parity symbols). */
  datatype Code = Code(parity: (seq<byte>, nat, nat) -> byte, solve: (map<nat, byte>, nat, nat) -> seq<byte>)

  /** Symbol `i` of a coded column. */
  function Symbol(code: Code, col: seq<byte>, par: nat, i: nat): byte {
    if i < |col| then col[i] else code.parity(col, par, i - |col|)
  }

  /** As many symbols as there are data symbols determine a column. */
  ghost predicate Solves(code: Code, data: nat, par: nat) {
    forall col: seq<byte>, known: map<nat, byte> ::
      |col| == data && |known| >= data && (forall i <- known :: i < data + par && known[i] == Symbol(code, col, par, i))
      ==> code.solve(known, data, par) == col
  }

  // ---- such codes exist: one data symbol may simply be repeated

  function FirstOf(col: seq<byte>): byte { if col == [] then 0 else col[0] }

  ghost function AnyOf(known: map<nat, byte>): seq<byte> {
    if known == map[] then [] else
    var i :| i in known;
    [known[i]]
  }

  lemma RepetitionSolves(par: nat) returns (code: Code)
    ensures Solves(code, 1, par) && forall col, p, j :: code.parity(col, p, j) == FirstOf(col)
  {
    code := Code((col, p, j) => FirstOf(col), (known, d, p) => AnyOf(known));
    forall col: seq<byte>, known: map<nat, byte> | |col| == 1 && |known| >= 1
        && forall i <- known :: i < 1 + par && known[i] == Symbol(code, col, par, i)
      ensures code.solve(known, 1, par) == col
    {
      assert known != map[];
      assert forall i <- known :: known[i] == col[0];
    }
  }
}
