/**
 The direct read (db.rs): a statement whose compiled program is one plain scan
 of one virtual table is answered from the table's own rows. `ScannedColumns`
 recognises such programs; the small interpreter below says what the engine
 would have done with them.
 */
module ScanProgram {
  import opened Wrappers
  import Values

  type Value = Values.Value

  datatype Code =
    Init | VOpen | Integer | VFilter | VColumn | ResultRow | VNext | Halt | Transaction | Goto | Other(name: string)

  datatype Op = Op(code: Code, p1: int, p2: int, p3: int, p5: int)

  function Plain(code: Code, p1: int, p2: int, p3: int): Op { Op(code, p1, p2, p3, 0) }

  function Opening(width: nat): seq<Op> {
    [Plain(Init, 0, width + 8, 0), Plain(VOpen, 0, 0, 0), Plain(Integer, 0, 1, 0), Plain(Integer, 0, 2, 0),
     Plain(VFilter, 0, width + 7, 1)]
  }

  function Loads(columns: seq<int>): (ops: seq<Op>)
    ensures |ops| == |columns|
  {
    seq(|columns|, k requires 0 <= k < |columns| => Plain(VColumn, 0, columns[k], 3 + k))
  }

  function Closing(width: nat): seq<Op> {
    [Plain(ResultRow, 3, width, 0), Plain(VNext, 0, 5, 0), Plain(Halt, 0, 0, 0)]
  }

  /** The program up to its transactions that visits every row of cursor 0 and
      hands over its cells at `columns`. */
  function ScanProgram(columns: seq<int>): (program: seq<Op>)
    ensures |program| == |columns| + 8
  {
    Opening(|columns|) + Loads(columns) + Closing(|columns|)
  }

  /** The second operand of every VColumn, in order. */
  function ColumnArgs(program: seq<Op>): seq<int> {
    if program == [] then []
    else (if program[0].code.VColumn? then [program[0].p2] else []) + ColumnArgs(program[1..])
  }

  function Naturals(columns: seq<int>): (r: Option<seq<nat>>)
    ensures r.Some? <==> forall k | 0 <= k < |columns| :: columns[k] >= 0
    ensures r.Some? ==> r.value == columns
  {
    if forall k | 0 <= k < |columns| :: columns[k] >= 0 then
      var all: seq<nat> := columns;
      Some(all)
    else None
  }

  predicate AllTransactions(ops: seq<Op>) { forall k | 0 <= k < |ops| :: ops[k].code.Transaction? }

  const BACK := Plain(Goto, 0, 1, 0)

  /** The columns a plain scan yields; `None` for any other program. */
  function ScannedColumns(program: seq<Op>): Option<seq<nat>> {
    var columns := ColumnArgs(program);
    var expected := ScanProgram(columns);
    if |program| <= |expected| then None
    else
      var rest := program[|expected|..];
      var plain :=
        && columns != [] && program[..|expected|] == expected
        && AllTransactions(rest[..|rest| - 1]) && rest[|rest| - 1] == BACK;
      if plain then Naturals(columns) else None
  }

  lemma {:induction false} ColumnArgsConcat(a: seq<Op>, b: seq<Op>)
    ensures ColumnArgs(a + b) == ColumnArgs(a) + ColumnArgs(b)
  {
    if a == [] {
      assert a + b == b;
    } else {
      assert (a + b)[1..] == a[1..] + b;
      ColumnArgsConcat(a[1..], b);
    }
  }

  lemma {:induction false} NoColumnArgs(ops: seq<Op>)
    requires forall k | 0 <= k < |ops| :: !ops[k].code.VColumn?
    ensures ColumnArgs(ops) == []
  {
    if ops != [] {
      NoColumnArgs(ops[1..]);
    }
  }

  lemma {:induction false} ColumnArgsOf(ops: seq<Op>, columns: seq<int>)
    requires |ops| == |columns|
    requires forall k | 0 <= k < |ops| :: ops[k].code.VColumn? && ops[k].p2 == columns[k]
    ensures ColumnArgs(ops) == columns
  {
    if ops != [] {
      ColumnArgsOf(ops[1..], columns[1..]);
    }
  }

  lemma {:induction false} ScanColumnArgs(columns: seq<int>, rest: seq<Op>, program: seq<Op>)
    requires forall k | 0 <= k < |rest| :: !rest[k].code.VColumn?
    requires program == ScanProgram(columns) + rest
    ensures ColumnArgs(program) == columns
  {
    var tail := Closing(|columns|) + rest;
    assert program == Opening(|columns|) + Loads(columns) + tail;
    OnlyBodyArgs(Opening(|columns|), Loads(columns), tail, columns);
  }

  lemma {:induction false} OnlyBodyArgs(head: seq<Op>, body: seq<Op>, tail: seq<Op>, columns: seq<int>)
    requires forall k | 0 <= k < |head| :: !head[k].code.VColumn?
    requires forall k | 0 <= k < |tail| :: !tail[k].code.VColumn?
    requires |body| == |columns| && forall k | 0 <= k < |body| :: body[k].code.VColumn? && body[k].p2 == columns[k]
    ensures ColumnArgs(head + body + tail) == columns
  {
    ColumnArgsConcat(head + body, tail);
    ColumnArgsConcat(head, body);
    NoColumnArgs(head);
    ColumnArgsOf(body, columns);
    NoColumnArgs(tail);
  }

  /**
   What is recognised: exactly a scan of some columns, then any transactions,
   then the jump back.
   */
  lemma {:induction false} ScannedIffPlainScan(program: seq<Op>, columns: seq<nat>)
    ensures ScannedColumns(program) == Some(columns) <==>
      columns != [] &&
      exists transactions :: AllTransactions(transactions) && program == ScanProgram(columns) + transactions + [BACK]
  {
    if ScannedColumns(program) == Some(columns) {
      var rest := program[|ScanProgram(columns)|..];
      var transactions := rest[..|rest| - 1];
      assert program == program[..|ScanProgram(columns)|] + rest && rest == transactions + [BACK];
      assert program == ScanProgram(columns) + transactions + [BACK];
    }
    if columns != [] {
      forall transactions | AllTransactions(transactions) && program == ScanProgram(columns) + transactions + [BACK]
        ensures ScannedColumns(program) == Some(columns)
      {
        PlainScanIsScanned(program, columns, transactions);
      }
    }
  }

  lemma {:induction false} PlainScanIsScanned(program: seq<Op>, columns: seq<nat>, transactions: seq<Op>)
    requires columns != [] && AllTransactions(transactions)
    requires program == ScanProgram(columns) + transactions + [BACK]
    ensures ScannedColumns(program) == Some(columns)
  {
    var rest := transactions + [BACK];
    assert program == ScanProgram(columns) + rest;
    ScanColumnArgs(columns, rest, program);
    assert program[|columns| + 8..] == rest && program[..|columns| + 8] == ScanProgram(columns);
    assert rest[..|rest| - 1] == transactions;
  }

  // ------------------------------------------------------------ interpreter

  /** A virtual table's rows; a row has NULL past its last cell. */
  type Table = seq<seq<Value>>

  function CellAt(row: seq<Value>, column: int): Value {
    if 0 <= column < |row| then row[column] else Values.Null
  }

  /** A program being run: the counter, the registers, the row under cursor 0
      once it is opened, and the rows handed out so far. */
  datatype Machine =
    | Running(pc: int, regs: map<int, Value>, started: bool, at: nat, rows: seq<seq<Value>>)
    | Done(rows: seq<seq<Value>>)
    | Stuck

  const START := Running(0, map[], false, 0, [])

  /** The registers `first` to `first + count - 1`. */
  function Registers(regs: map<int, Value>, first: int, count: int): (row: Option<seq<Value>>)
    requires count >= 0
  {
    if forall r | first <= r < first + count :: r in regs then
      Some(seq(count, k requires 0 <= k < count => regs[first + k]))
    else None
  }

  /** One instruction. A filter with no constraint, no argument and index
      number zero scans the whole table. */
  function Step(program: seq<Op>, table: Table, m: Machine): Machine {
    if !m.Running? then m
    else if !(0 <= m.pc < |program|) then Stuck
    else
      var op, next := program[m.pc], m.(pc := m.pc + 1);
      match op.code
      case Init => m.(pc := op.p2)
      case Goto => m.(pc := op.p2)
      case Transaction => next
      case Integer => next.(regs := m.regs[op.p2 := Values.Integer(op.p1)])
      case VOpen => if op.p1 == 0 then next.(started := true) else Stuck
      case VFilter =>
        if op.p1 == 0 && m.started && Registers(m.regs, op.p3, 2) == Some([Values.Integer(0), Values.Integer(0)]) then
          if table == [] then m.(pc := op.p2) else next.(at := 0)
        else Stuck
      case VColumn =>
        if op.p1 == 0 && m.started && m.at < |table| then next.(regs := m.regs[op.p3 := CellAt(table[m.at], op.p2)])
        else Stuck
      case ResultRow =>
        if op.p2 < 0 || Registers(m.regs, op.p1, op.p2).None? then Stuck
        else next.(rows := m.rows + [Registers(m.regs, op.p1, op.p2).value])
      case VNext =>
        if op.p1 != 0 || !m.started then Stuck
        else if m.at + 1 < |table| then m.(pc := op.p2, at := m.at + 1) else next
      case Halt => Done(m.rows)
      case Other(_) => Stuck
  }

  function Steps(program: seq<Op>, table: Table, m: Machine, n: nat): Machine
    decreases n
  {
    if n == 0 then m else Steps(program, table, Step(program, table, m), n - 1)
  }

  /** The rows with only `columns`, in order. */
  function Projection(columns: seq<int>, table: Table): (rows: seq<seq<Value>>)
    ensures |rows| == |table|
  {
    seq(|table|, i requires 0 <= i < |table| => Projected(columns, table[i]))
  }

  function Projected(columns: seq<int>, row: seq<Value>): (r: seq<Value>)
    ensures |r| == |columns|
  {
    seq(|columns|, k requires 0 <= k < |columns| => CellAt(row, columns[k]))
  }

  lemma {:induction false} StepsAdd(program: seq<Op>, table: Table, m: Machine, a: nat, b: nat)
    ensures Steps(program, table, m, a + b) == Steps(program, table, Steps(program, table, m, a), b)
    decreases a
  {
    if a > 0 {
      StepsAdd(program, table, Step(program, table, m), a - 1, b);
    }
  }

  /** The first `k` columns of the current row are in their registers. */
  ghost predicate Loaded(columns: seq<int>, table: Table, m: Machine, k: nat)
    requires k <= |columns|
  {
    && m.Running? && m.started && m.at < |table| && m.pc == 5 + k
    && forall r | 3 <= r < 3 + k :: r in m.regs && m.regs[r] == CellAt(table[m.at], columns[r - 3])
  }

  ghost predicate Scans(program: seq<Op>, columns: seq<int>) {
    |ScanProgram(columns)| <= |program| && program[..|ScanProgram(columns)|] == ScanProgram(columns)
  }

  lemma {:induction false} ScanOps(program: seq<Op>, columns: seq<int>)
    requires Scans(program, columns)
    ensures var w := |columns|;
      && program[0] == Plain(Init, 0, w + 8, 0) && program[1] == Plain(VOpen, 0, 0, 0)
      && program[2] == Plain(Integer, 0, 1, 0) && program[3] == Plain(Integer, 0, 2, 0)
      && program[4] == Plain(VFilter, 0, w + 7, 1)
      && (forall i | 5 <= i < 5 + w :: program[i] == Plain(VColumn, 0, columns[i - 5], i - 2))
      && program[5 + w] == Plain(ResultRow, 3, w, 0) && program[6 + w] == Plain(VNext, 0, 5, 0)
      && program[7 + w] == Plain(Halt, 0, 0, 0)
  {
    var s := ScanProgram(columns);
    assert forall k | 0 <= k < |s| :: program[k] == program[..|s|][k];
  }

  /** The VColumn instructions load the current row. */
  lemma {:induction false} LoadsRow(program: seq<Op>, columns: seq<int>, table: Table, m: Machine, k: nat)
    requires Scans(program, columns) && k <= |columns| && Loaded(columns, table, m, k)
    ensures var m' := Steps(program, table, m, |columns| - k);
      Loaded(columns, table, m', |columns|) && m'.at == m.at && m'.rows == m.rows
    decreases |columns| - k
  {
    if k < |columns| {
      ScanOps(program, columns);
      assert program[m.pc] == program[5 + k];
      LoadsRow(program, columns, table, Step(program, table, m), k + 1);
    }
  }

  /** Loading a row, handing it out and moving on. */
  lemma {:induction false} YieldsRow(program: seq<Op>, columns: seq<int>, table: Table, m: Machine)
    requires Scans(program, columns) && Loaded(columns, table, m, 0)
    ensures var m', rows := Steps(program, table, m, |columns| + 2), m.rows + [Projected(columns, table[m.at])];
      && m'.Running? && m'.rows == rows && m'.started
      && (if m.at + 1 < |table| then m'.pc == 5 && m'.at == m.at + 1 else m'.pc == |columns| + 7)
  {
    var w := |columns|;
    LoadsRow(program, columns, table, m, 0);
    var loaded := Steps(program, table, m, w);
    ScanOps(program, columns);
    var yielded := Step(program, table, loaded);
    assert Registers(loaded.regs, 3, w).Some?;
    assert Registers(loaded.regs, 3, w).value == Projected(columns, table[m.at]);
    StepsAdd(program, table, m, w, 2);
    assert Steps(program, table, loaded, 2) == Steps(program, table, yielded, 1) == Step(program, table, yielded);
  }

  /** From row `m.at` on, the scan ends with every row left handed out. */
  lemma {:induction false} YieldsRest(program: seq<Op>, columns: seq<int>, table: Table, m: Machine) returns (n: nat)
    requires Scans(program, columns) && Loaded(columns, table, m, 0)
    requires m.rows == Projection(columns, table[..m.at])
    ensures Steps(program, table, m, n) == Done(Projection(columns, table))
    decreases |table| - m.at
  {
    var m' := Steps(program, table, m, |columns| + 2);
    YieldsRow(program, columns, table, m);
    assert table[..m.at + 1] == table[..m.at] + [table[m.at]];
    assert m'.rows == Projection(columns, table[..m.at + 1]);
    if m.at + 1 < |table| {
      var rest := YieldsRest(program, columns, table, m');
      n := |columns| + 2 + rest;
      StepsAdd(program, table, m, |columns| + 2, rest);
    } else {
      assert table[..m.at + 1] == table;
      ScanOps(program, columns);
      n := |columns| + 2 + 1;
      StepsAdd(program, table, m, |columns| + 2, 1);
      assert Steps(program, table, m', 1) == Step(program, table, m');
    }
  }

  lemma {:induction false} PassesTransactions(program: seq<Op>, table: Table, m: Machine, n: nat)
    requires m.Running? && 0 <= m.pc && m.pc + n <= |program|
    requires forall k | m.pc <= k < m.pc + n :: program[k].code.Transaction?
    ensures Steps(program, table, m, n) == m.(pc := m.pc + n)
    decreases n
  {
    if n > 0 {
      PassesTransactions(program, table, m.(pc := m.pc + 1), n - 1);
    }
  }

  /** The prologue: out to the transactions, back, and up to the filter. */
  lemma {:induction false} ReachesFilter(program: seq<Op>, columns: seq<nat>, transactions: seq<Op>, table: Table)
      returns (n: nat)
    requires AllTransactions(transactions) && program == ScanProgram(columns) + transactions + [BACK]
    ensures Steps(program, table, START, n) ==
      Running(4, map[1 := Values.Integer(0), 2 := Values.Integer(0)], true, 0, [])
  {
    var w, t := |columns|, |transactions|;
    assert program[..w + 8] == ScanProgram(columns);
    ScanOps(program, columns);
    assert program[w + 8 + t] == BACK;
    assert forall k | 0 <= k < t :: program[w + 8 + k] == transactions[k];
    var out := Step(program, table, START);
    assert out == START.(pc := w + 8);
    forall k | w + 8 <= k < w + 8 + t ensures program[k].code.Transaction? {
      assert program[w + 8 + (k - w - 8)] == transactions[k - w - 8];
    }
    PassesTransactions(program, table, out, t);
    var through := START.(pc := w + 8 + t);
    var back := START.(pc := 1);
    assert Step(program, table, through) == back;
    n := 1 + (t + 4);
    StepsAdd(program, table, START, 1, t + 4);
    assert Steps(program, table, START, 1) == out;
    StepsAdd(program, table, out, t, 4);
    Prologue(program, columns, table);
    assert Steps(program, table, through, 4) == Steps(program, table, back, 3);
  }

  lemma {:induction false} Prologue(program: seq<Op>, columns: seq<int>, table: Table)
    requires Scans(program, columns)
    ensures Steps(program, table, START.(pc := 1), 3) ==
      Running(4, map[1 := Values.Integer(0), 2 := Values.Integer(0)], true, 0, [])
  {
    ScanOps(program, columns);
    var m1 := START.(pc := 1);
    var m2 := Step(program, table, m1);
    assert m2 == START.(pc := 2, started := true);
    var m3 := Step(program, table, m2);
    assert m3 == m2.(pc := 3, regs := map[1 := Values.Integer(0)]);
    var m4 := Step(program, table, m3);
    assert m4 == m2.(pc := 4, regs := map[1 := Values.Integer(0), 2 := Values.Integer(0)]);
    assert Steps(program, table, m1, 3) == Steps(program, table, m2, 2) == Steps(program, table, m3, 1) == m4;
  }

  /**
   A recognised program, run whole, hands out exactly the projection of every
   row of the table in order, be the table empty or not: what reading the
   table directly hands out.
   */
  lemma {:induction false} RunIsProjection(program: seq<Op>, columns: seq<nat>, table: Table)
    requires ScannedColumns(program) == Some(columns)
    ensures exists n :: Steps(program, table, START, n) == Done(Projection(columns, table))
  {
    ScannedIffPlainScan(program, columns);
    var transactions :| AllTransactions(transactions) && program == ScanProgram(columns) + transactions + [BACK];
    assert program[..|columns| + 8] == ScanProgram(columns);
    var n := ReachesFilter(program, columns, transactions, table);
    var m := Steps(program, table, START, n);
    ScanOps(program, columns);
    assert Registers(m.regs, 1, 2).Some?;
    assert Registers(m.regs, 1, 2).value == [Values.Integer(0), Values.Integer(0)];
    var m' := Step(program, table, m);
    var more: nat;
    if table == [] {
      more := 1;
      assert Steps(program, table, m', 1) == Step(program, table, m') == Done([]);
      assert Projection(columns, table) == [];
    } else {
      assert table[..0] == [] && Projection(columns, table[..0]) == [];
      more := YieldsRest(program, columns, table, m');
    }
    StepsAdd(program, table, START, n, 1 + more);
    assert Steps(program, table, m, 1 + more) == Steps(program, table, m', more);
    assert Steps(program, table, START, n + (1 + more)) == Done(Projection(columns, table));
  }

  lemma {:induction false} DoneStays(program: seq<Op>, table: Table, m: Machine, n: nat)
    requires m.Done?
    ensures Steps(program, table, m, n) == m
  {
    if n > 0 {
      DoneStays(program, table, m, n - 1);
    }
  }

  /** And it ends no other way. */
  lemma {:induction false} RunEndsOneWay(program: seq<Op>, columns: seq<nat>, table: Table, n: nat)
    requires ScannedColumns(program) == Some(columns)
    ensures var m := Steps(program, table, START, n); m.Running? || m == Done(Projection(columns, table))
  {
    RunIsProjection(program, columns, table);
    var end: nat :| Steps(program, table, START, end) == Done(Projection(columns, table));
    var m := Steps(program, table, START, n);
    if n <= end {
      StepsAdd(program, table, START, n, end - n);
      if m.Done? {
        DoneStays(program, table, m, end - n);
      } else if m.Stuck? {
        StuckStays(program, table, end - n);
      }
    } else {
      StepsAdd(program, table, START, end, n - end);
      DoneStays(program, table, Done(Projection(columns, table)), n - end);
    }
  }

  lemma {:induction false} StuckStays(program: seq<Op>, table: Table, n: nat)
    ensures Steps(program, table, Stuck, n) == Stuck
  {
    if n > 0 {
      StuckStays(program, table, n - 1);
    }
  }
}
