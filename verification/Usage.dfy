/** The hosted service's bookkeeping for one org in one period, calls one at a time:
    action rows move as the machine allows while a usage counter follows them. */
module UsageSpec {
  import opened Prelude
  import opened ActionLedger
  import opened ActionMachine
  import opened Billing
  import opened CodeUnits

  /** `denied` is a history: re-reservations the meter turned down. */
  datatype Usage = Usage(counter: int, rows: map<JsString, Status>, denied: nat)

  const Fresh := Usage(0, map[], 0)

  datatype Op = Insert(key: Option<JsString>, tool: string, storeThrows: bool) | Move(row: JsString, to: Status)

  datatype Answer =
    | BadRequest | QuotaExceeded | StoreFailed | Duplicate | Inserted
    | Missing | Illegal(from: Status) | Moved

  function InsertAnswer(u: Usage, plan: Option<string>, key: Option<JsString>, tool: string,
                        storeThrows: bool): Answer {
    if key.None? || tool == "" then BadRequest
    else if !Admits(plan, u.counter + 1) then QuotaExceeded
    else if storeThrows then StoreFailed
    else if key.value in u.rows then Duplicate
    else Answer.Inserted
  }

  function MoveAnswer(u: Usage, key: JsString, to: Status): Answer {
    if key !in u.rows then Missing
    else if !Allowed(u.rows[key], to) then Illegal(u.rows[key])
    else Answer.Moved
  }

  /** A row that starts to count again while the meter turns the slot down. */
  predicate Starved(u: Usage, plan: Option<string>, from: Status, to: Status) {
    !Counts(from) && Counts(to) && !Admits(plan, u.counter + 1)
  }

  function Apply(u: Usage, plan: Option<string>, op: Op): Usage {
    match op
    case Insert(key, tool, storeThrows) =>
      if InsertAnswer(u, plan, key, tool, storeThrows) == Answer.Inserted
      then Usage(u.counter + 1, u.rows[key.value := Pending], u.denied)
      else u
    case Move(key, to) =>
      if MoveAnswer(u, key, to) == Answer.Moved then
        var from := u.rows[key];
        Usage(if Counts(from) && !Counts(to) then u.counter - 1
              else if !Counts(from) && Counts(to) && Admits(plan, u.counter + 1) then u.counter + 1
              else u.counter,
              u.rows[key := to],
              if Starved(u, plan, from, to) then u.denied + 1 else u.denied)
      else u
  }

  function After(plan: Option<string>, ops: seq<Op>): Usage {
    if ops == [] then Fresh else Apply(After(plan, ops[..|ops| - 1]), plan, ops[|ops| - 1])
  }

  function Counting(u: Usage): set<JsString> {
    set k | k in u.rows && Counts(u.rows[k])
  }

  // ---------------------------------------------------------------- conservation

  lemma InsertConserves(u: Usage, key: JsString)
    requires u.counter + u.denied == |Counting(u)| && key !in u.rows
    ensures var u' := Usage(u.counter + 1, u.rows[key := Pending], u.denied);
            u'.counter + u'.denied == |Counting(u')|
  {
    assert Counting(Usage(u.counter + 1, u.rows[key := Pending], u.denied)) == Counting(u) + {key};
  }

  lemma CountingMoves(rows: map<JsString, Status>, key: JsString, to: Status, a: Usage, b: Usage)
    requires key in rows && a.rows == rows && b.rows == rows[key := to]
    ensures |Counting(b)| - |Counting(a)| == (if Counts(to) then 1 else 0) - (if Counts(rows[key]) then 1 else 0)
  {
    var rest := Counting(a) - {key};
    assert Counting(a) == if Counts(rows[key]) then rest + {key} else rest;
    assert Counting(b) == if Counts(to) then rest + {key} else rest;
  }

  lemma ApplyConserves(u: Usage, plan: Option<string>, op: Op)
    requires u.counter + u.denied == |Counting(u)|
    ensures var u' := Apply(u, plan, op); u'.counter + u'.denied == |Counting(u')|
  {
    match op
    case Insert(key, tool, storeThrows) =>
      if InsertAnswer(u, plan, key, tool, storeThrows) == Answer.Inserted {
        InsertConserves(u, key.value);
      }
    case Move(key, to) =>
      if MoveAnswer(u, key, to) == Answer.Moved {
        CountingMoves(u.rows, key, to, u, Apply(u, plan, op));
      }
  }

  /** Over any calls the counter is the number of rows that count, less the
      re-reservations that were turned down; on plans that turn nothing down it is
      exactly that number, and on a capped plan never more. */
  lemma {:induction false} UsageIsConserved(plan: Option<string>, ops: seq<Op>)
    ensures var u := After(plan, ops);
            && u.counter + u.denied == |Counting(u)|
            && u.counter <= |Counting(u)|
            && (!HardCapped(plan) ==> u.counter == |Counting(u)|)
  {
    if ops != [] {
      var n := |ops| - 1;
      UsageIsConserved(plan, ops[..n]);
      ApplyConserves(After(plan, ops[..n]), plan, ops[n]);
    }
  }

  /** One call keeps the counter exact if and only if it does not bring a failed row
      back to counting at a moment when a hard-capped plan's counter has reached its
      limit. */
  lemma CounterStaysExactIff(u: Usage, plan: Option<string>, op: Op)
    requires u.counter == |Counting(u)|
    ensures var u' := Apply(u, plan, op);
            u'.counter == |Counting(u')|
            <==> !(op.Move? && MoveAnswer(u, op.row, op.to) == Answer.Moved
                   && u.rows[op.row] == Failed && Counts(op.to)
                   && HardCapped(plan) && u.counter >= PlanLimit(plan).value)
  {
    ApplyConserves(Usage(u.counter, u.rows, 0), plan, op);
    var same := Apply(Usage(u.counter, u.rows, 0), plan, op);
    var u' := Apply(u, plan, op);
    assert same.counter == u'.counter && same.rows == u'.rows && Counting(same) == Counting(u');
  }

  /** A plan with a hard cap never counts above it. */
  lemma {:induction false} CounterWithinCap(plan: Option<string>, ops: seq<Op>)
    requires HardCapped(plan)
    ensures After(plan, ops).counter <= PlanLimit(plan).value
  {
    if ops != [] {
      CounterWithinCap(plan, ops[..|ops| - 1]);
    }
  }

  predicate Live(s: Status) {
    s in {Pending, Running, Succeeded, AwaitingApproval, Approved}
  }

  /** After any calls, an insert creates its row, pending, and takes one slot exactly when
      it names a key and a tool, the key is new, the store does not throw, and on a
      hard-capped plan fewer than 1000 slots are taken; otherwise it changes nothing. */
  lemma InsertCreatesIff(plan: Option<string>, ops: seq<Op>, key: Option<JsString>, tool: string, storeThrows: bool)
    ensures var u := After(plan, ops);
            var u' := Apply(u, plan, Insert(key, tool, storeThrows));
            if key.Some? && tool != "" && key.value !in u.rows && !storeThrows
               && (plan == Some("pro") || plan == Some("scale") || u.counter < 1000)
            then u' == Usage(u.counter + 1, u.rows[key.value := Pending], u.denied)
            else u' == u
  {
  }

  /** How a refused insert is refused: a malformed one first, then a full quota, then a
      store that throws, then a duplicate. */
  lemma InsertRefusals(plan: Option<string>, ops: seq<Op>, key: Option<JsString>, tool: string, storeThrows: bool)
    ensures var u := After(plan, ops);
            var answer := InsertAnswer(u, plan, key, tool, storeThrows);
            var full := plan != Some("pro") && plan != Some("scale") && u.counter >= 1000;
            && (answer == BadRequest <==> key == None || tool == "")
            && (answer == QuotaExceeded <==> key.Some? && tool != "" && full)
            && (answer == StoreFailed <==> key.Some? && tool != "" && !full && storeThrows)
            && (answer == Duplicate <==> key.Some? && tool != "" && !full && !storeThrows && key.value in u.rows)
  {
  }

  /** A move the machine allows is made, and the counter follows it: down when the row
      stops to count, up when it starts to again and the plan has room. */
  lemma MoveIsMadeIff(u: Usage, plan: Option<string>, key: JsString, to: Status)
    ensures var u' := Apply(u, plan, Move(key, to));
            if key in u.rows && Allowed(u.rows[key], to) then
              var room := plan == Some("pro") || plan == Some("scale") || u.counter < 1000;
              && u'.rows == u.rows[key := to]
              && u'.counter - u.counter
                 == (if Live(to) && !Live(u.rows[key]) && room then 1 else 0)
                    - (if Live(u.rows[key]) && !Live(to) then 1 else 0)
            else u' == u
  {
  }

  /** Rows only ever move as the machine allows, and a terminal row never moves. */
  lemma {:induction false} TerminalRowsStay(plan: Option<string>, ops: seq<Op>, n: nat, key: JsString)
    requires n <= |ops| && key in After(plan, ops[..n]).rows && Terminal(After(plan, ops[..n]).rows[key])
    ensures key in After(plan, ops).rows && After(plan, ops).rows[key] == After(plan, ops[..n]).rows[key]
    decreases |ops|
  {
    if n == |ops| {
      assert ops[..n] == ops;
    } else {
      assert ops[..|ops| - 1][..n] == ops[..n];
      TerminalRowsStay(plan, ops[..|ops| - 1], n, key);
    }
  }

  // ---------------------------------------------------------------- the counter can fall behind

  function Name(n: nat): JsString {
    seq(n, _ => 97)
  }

  function Inserts(n: nat): seq<Op> {
    seq(n, i requires i >= 0 => Insert(Some(Name(i)), "t", false))
  }

  /** n rows by these names, all pending. */
  ghost predicate Filled(u: Usage, n: nat) {
    && u.counter == n && u.denied == 0
    && (forall k :: k in u.rows <==> |k| < n && k == Name(|k|))
    && (forall k :: k in u.rows ==> u.rows[k] == Pending)
  }

  lemma FilledOneMore(u: Usage, n: nat)
    requires Filled(u, n) && n < 1000
    ensures Filled(Apply(u, None, Insert(Some(Name(n)), "t", false)), n + 1)
  {
    assert |Name(n)| == n;
  }

  lemma {:induction false} AfterInserts(n: nat)
    requires n <= 1000
    ensures Filled(After(None, Inserts(n)), n)
  {
    if n > 0 {
      AfterInserts(n - 1);
      InsertsNext(n - 1);
      FilledOneMore(After(None, Inserts(n - 1)), n - 1);
    }
  }

  lemma InsertsNext(n: nat)
    ensures After(None, Inserts(n + 1)) == Apply(After(None, Inserts(n)), None, Insert(Some(Name(n)), "t", false))
  {
    assert Inserts(n + 1) == Inserts(n) + [Insert(Some(Name(n)), "t", false)];
    AfterSnoc(None, Inserts(n), Insert(Some(Name(n)), "t", false));
  }

  lemma AfterSnoc(plan: Option<string>, ops: seq<Op>, op: Op)
    ensures After(plan, ops + [op]) == Apply(After(plan, ops), plan, op)
  {
    assert (ops + [op])[..|ops|] == ops;
  }

  lemma FullThenBehind(u: Usage, earlier: JsString, newer: JsString)
    requires u.counter == 1000 && u.denied == 0 && earlier in u.rows && u.rows[earlier] == Pending && newer !in u.rows
    ensures var u1 := Apply(u, None, Move(earlier, Failed));
            var u2 := Apply(u1, None, Insert(Some(newer), "t", false));
            var u3 := Apply(u2, None, Move(earlier, Running));
            u3.counter == 1000 && u3.denied == 1
  {
  }

  lemma BehindFrom(fill: seq<Op>, earlier: JsString, newer: JsString)
    requires var u := After(None, fill);
             && u.counter == 1000 && u.denied == 0
             && earlier in u.rows && u.rows[earlier] == Pending && newer !in u.rows
    ensures exists ops :: After(None, ops).counter == 1000 && |Counting(After(None, ops))| == 1001
  {
    var op1, op2, op3 := Move(earlier, Failed), Insert(Some(newer), "t", false), Move(earlier, Running);
    FullThenBehind(After(None, fill), earlier, newer);
    AfterSnoc(None, fill, op1);
    AfterSnoc(None, fill + [op1], op2);
    AfterSnoc(None, fill + [op1] + [op2], op3);
    UsageIsConserved(None, fill + [op1] + [op2] + [op3]);
  }

  /** On a capped plan the counter can end up below the number of rows that count:
      fill the quota, fail one row, take its slot with another, retry the first. */
  lemma CounterCanFallBehind()
    ensures exists ops :: After(None, ops).counter == 1000 && |Counting(After(None, ops))| == 1001
  {
    AfterInserts(1000);
    BehindFrom(Inserts(1000), Name(0), Name(1000));
  }
}
