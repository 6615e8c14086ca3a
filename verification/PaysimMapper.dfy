/** backend/src/modules/transactions/paysim.mapper.js: one parsed CSV row to the
    transaction it stores, or the reason it cannot be used. */
module PaysimMapper {
  import opened Collections
  import opened Csv

  /** One CSV value as `toNumber` sees it: its text, and what Number(text) is when
      that is finite. */
  datatype Field = Missing | Entry(text: string, number: Option<real>)

  datatype RawRow = RawRow(
    step: Field, kind: string, amount: Field, nameOrig: string, nameDest: string,
    oldbalanceOrg: Field, newbalanceOrig: Field, oldbalanceDest: Field, newbalanceDest: Field,
    txnIdColumn: string)

  datatype RowError =
    | EmptyField(field: string)
    | NotANumber(field: string)
    | StepNotPositiveInteger
    | UnknownType
    | NegativeAmount

  datatype Txn = Txn(
    txnId: string, txnType: string, amount: real, senderId: string, receiverId: string,
    origBalanceBefore: real, origBalanceAfter: real, destBalanceBefore: real, destBalanceAfter: real,
    timestampMs: int)

  const PAYSIM_TXN_TYPES := ["TRANSFER", "CASH_OUT", "PAYMENT", "CASH_IN", "DEBIT"]

  const REQUIRED_CSV_HEADERS := [
    "step", "type", "amount", "nameOrig", "oldbalanceOrg", "newbalanceOrig",
    "nameDest", "oldbalanceDest", "newbalanceDest"]

  /** 2026-01-01T00:00:00Z, and the length of a PaySim step. */
  const PAYSIM_EPOCH: int := 1767225600000
  const HOUR_MS: int := 3600000

  function StepToTimestamp(step: int): int {
    PAYSIM_EPOCH + (step - 1) * HOUR_MS
  }

  function ToNumber(f: Field, name: string): Result<real, RowError> {
    if f.Missing? || f.text == "" then Err(EmptyField(name))
    else if f.number == None then Err(NotANumber(name))
    else Ok(f.number.value)
  }

  /** toUpperCase on the letters that can spell a PaySim type; two lower-case
      letters outside ASCII also have ASCII capitals. */
  function Upper(s: string): string {
    if s == "" then ""
    else
      var ch := s[0];
      [if 'a' <= ch <= 'z' then (ch as int - 32) as char
       else if ch == '\U{0131}' then 'I' else if ch == '\U{017F}' then 'S' else ch] + Upper(s[1..])
  }

  function TextOfField(f: Field): string {
    if f.Missing? then "" else f.text
  }

  /** `[step, type, amount, nameOrig, nameDest].join('|')`. */
  function NaturalKey(step: string, kind: string, amount: string, from: string, to: string): string {
    step + "|" + kind + "|" + amount + "|" + from + "|" + to
  }

  function TxnIdOf(row: RawRow, digest: string -> string): string {
    var given := Trim(row.txnIdColumn);
    if given != "" then given
    else "TXN-" + digest(NaturalKey(TextOfField(row.step), Upper(Trim(row.kind)), TextOfField(row.amount),
                                    Trim(row.nameOrig), Trim(row.nameDest)))
  }

  /** `mapRowToTransaction`: the checks in the order the source makes them. */
  function MapRow(row: RawRow, digest: string -> string): Result<Txn, RowError> {
    var step := ToNumber(row.step, "step");
    if step.Err? then Err(step.error)
    else if step.value.Floor as real != step.value || step.value < 1.0 then Err(StepNotPositiveInteger)
    else
      var kind := Upper(Trim(row.kind));
      if kind !in PAYSIM_TXN_TYPES then Err(UnknownType)
      else
        var amount := ToNumber(row.amount, "amount");
        if amount.Err? then Err(amount.error)
        else if amount.value < 0.0 then Err(NegativeAmount)
        else
          var from, to := Trim(row.nameOrig), Trim(row.nameDest);
          if from == "" then Err(EmptyField("nameOrig"))
          else if to == "" then Err(EmptyField("nameDest"))
          else MapBalances(row, Txn(TxnIdOf(row, digest), kind, amount.value, from, to, 0.0, 0.0, 0.0, 0.0,
                                    StepToTimestamp(step.value.Floor)))
  }

  function MapBalances(row: RawRow, t: Txn): Result<Txn, RowError> {
    var a, b := ToNumber(row.oldbalanceOrg, "oldbalanceOrg"), ToNumber(row.newbalanceOrig, "newbalanceOrig");
    var c, d := ToNumber(row.oldbalanceDest, "oldbalanceDest"), ToNumber(row.newbalanceDest, "newbalanceDest");
    if a.Err? then Err(a.error) else if b.Err? then Err(b.error)
    else if c.Err? then Err(c.error) else if d.Err? then Err(d.error)
    else Ok(t.(origBalanceBefore := a.value, origBalanceAfter := b.value,
               destBalanceBefore := c.value, destBalanceAfter := d.value))
  }

  predicate Usable(f: Field) {
    f.Entry? && f.text != "" && f.number.Some?
  }

  lemma BalancesAccept(row: RawRow, t: Txn)
    ensures MapBalances(row, t).Ok? <==>
              && Usable(row.oldbalanceOrg) && Usable(row.newbalanceOrig)
              && Usable(row.oldbalanceDest) && Usable(row.newbalanceDest)
  {
  }

  lemma NumberAccepts(f: Field, name: string)
    ensures ToNumber(f, name).Ok? <==> Usable(f)
    ensures Usable(f) ==> ToNumber(f, name).value == f.number.value
  {
  }

  /** Exactly which rows are imported. */
  lemma MapRowAccepts(row: RawRow, digest: string -> string)
    ensures MapRow(row, digest).Ok? <==>
            && Usable(row.step) && row.step.number.value >= 1.0
            && row.step.number.value.Floor as real == row.step.number.value
            && Upper(Trim(row.kind)) in {"TRANSFER", "CASH_OUT", "PAYMENT", "CASH_IN", "DEBIT"}
            && Usable(row.amount) && row.amount.number.value >= 0.0
            && Visible(row.nameOrig) && Visible(row.nameDest)
            && Usable(row.oldbalanceOrg) && Usable(row.newbalanceOrig)
            && Usable(row.oldbalanceDest) && Usable(row.newbalanceDest)
  {
    TrimVisibleExactly(row.nameOrig);
    TrimVisibleExactly(row.nameDest);
    NumberAccepts(row.step, "step");
    NumberAccepts(row.amount, "amount");
    if Usable(row.step) && Usable(row.amount) {
      BalancesAccept(row, Txn(TxnIdOf(row, digest), Upper(Trim(row.kind)), row.amount.number.value,
                              Trim(row.nameOrig), Trim(row.nameDest), 0.0, 0.0, 0.0, 0.0,
                              StepToTimestamp(row.step.number.value.Floor)));
    }
  }

  /** What is stored of an imported row: every field from its own column. */
  lemma MapRowFields(row: RawRow, digest: string -> string)
    requires MapRow(row, digest).Ok?
    ensures Usable(row.step) && Usable(row.amount) && Usable(row.oldbalanceOrg) && Usable(row.newbalanceOrig)
    ensures Usable(row.oldbalanceDest) && Usable(row.newbalanceDest)
    ensures MapRow(row, digest).value ==
              Txn(TxnIdOf(row, digest), Upper(Trim(row.kind)), row.amount.number.value,
                  Trim(row.nameOrig), Trim(row.nameDest),
                  row.oldbalanceOrg.number.value, row.newbalanceOrig.number.value,
                  row.oldbalanceDest.number.value, row.newbalanceDest.number.value,
                  StepToTimestamp(row.step.number.value.Floor))
  {
  }

  /** An imported transaction has an id, an amount that is not negative, and a time on
      the hour, the epoch or later. */
  lemma ImportedIsSound(row: RawRow, digest: string -> string)
    requires MapRow(row, digest).Ok?
    ensures var t := MapRow(row, digest).value;
            && t.txnId != "" && t.amount >= 0.0 && t.timestampMs >= PAYSIM_EPOCH
            && (t.timestampMs - PAYSIM_EPOCH) % HOUR_MS == 0
  {
    MapRowFields(row, digest);
    MapRowAccepts(row, digest);
    var r := row.step.number.value;
    assert (r.Floor - 1) * HOUR_MS % HOUR_MS == 0;
  }

  /** Step 1 is the epoch and every further step an hour later, so the order of the
      steps is the order of the timestamps. */
  lemma StepsAreHours(step: int, later: int)
    ensures StepToTimestamp(1) == 1767225600000 && StepToTimestamp(step + 1) == StepToTimestamp(step) + 3600000
    ensures step < later <==> StepToTimestamp(step) < StepToTimestamp(later)
  {
    assert (later - step) * HOUR_MS == (later - 1) * HOUR_MS - (step - 1) * HOUR_MS;
  }

  /** A transaction's id is its own column if that says anything, and otherwise a
      function of the five natural parts alone: the same row read again, whatever its
      balances say by then, is the same transaction. */
  lemma IdIsStable(row: RawRow, again: RawRow, digest: string -> string)
    requires !Visible(row.txnIdColumn) && !Visible(again.txnIdColumn)
    requires row.step == again.step && row.amount == again.amount
    requires Upper(Trim(row.kind)) == Upper(Trim(again.kind))
    requires Trim(row.nameOrig) == Trim(again.nameOrig) && Trim(row.nameDest) == Trim(again.nameDest)
    ensures TxnIdOf(row, digest) == TxnIdOf(again, digest)
    ensures |TxnIdOf(row, digest)| >= 4 && TxnIdOf(row, digest)[..4] == "TXN-"
  {
    TrimVisibleExactly(row.txnIdColumn);
    TrimVisibleExactly(again.txnIdColumn);
  }

  /** A given id is taken as it is; otherwise two rows have the same id, whatever the
      digest, exactly when their natural keys are the same. */
  lemma IdExactly(row: RawRow, r: RawRow)
    ensures Visible(row.txnIdColumn) ==> forall digest :: TxnIdOf(row, digest) == Trim(row.txnIdColumn)
    ensures !Visible(row.txnIdColumn) && !Visible(r.txnIdColumn) ==>
              ((forall digest :: TxnIdOf(row, digest) == TxnIdOf(r, digest)) <==> RowKey(row) == RowKey(r))
  {
    TrimVisibleExactly(row.txnIdColumn);
    TrimVisibleExactly(r.txnIdColumn);
    var same := (s: string) => s;
    if !Visible(row.txnIdColumn) && !Visible(r.txnIdColumn) && TxnIdOf(row, same) == TxnIdOf(r, same) {
      assert RowKey(row) == TxnIdOf(row, same)[4..] == TxnIdOf(r, same)[4..] == RowKey(r);
    }
  }

  /** The text column or number column of that name. */
  function NumberColumn(row: RawRow, name: string): Option<Field> {
    if name == "step" then Some(row.step)
    else if name == "amount" then Some(row.amount)
    else if name == "oldbalanceOrg" then Some(row.oldbalanceOrg)
    else if name == "newbalanceOrig" then Some(row.newbalanceOrig)
    else if name == "oldbalanceDest" then Some(row.oldbalanceDest)
    else if name == "newbalanceDest" then Some(row.newbalanceDest)
    else None
  }

  /** The reason given for refusing a row is true of the row. */
  ghost predicate TrueOf(error: RowError, row: RawRow) {
    match error
    case EmptyField(name) =>
      || (name == "nameOrig" && !Visible(row.nameOrig)) || (name == "nameDest" && !Visible(row.nameDest))
      || (NumberColumn(row, name).Some? && var f := NumberColumn(row, name).value; f.Missing? || f.text == "")
    case NotANumber(name) =>
      NumberColumn(row, name).Some? &&
      var f := NumberColumn(row, name).value; f.Entry? && f.text != "" && f.number.None?
    case StepNotPositiveInteger =>
      Usable(row.step) && (row.step.number.value < 1.0 || row.step.number.value.Floor as real != row.step.number.value)
    case UnknownType => Upper(Trim(row.kind)) !in PAYSIM_TXN_TYPES
    case NegativeAmount => Usable(row.amount) && row.amount.number.value < 0.0
  }

  lemma NumberRefusal(row: RawRow, name: string, f: Field)
    requires NumberColumn(row, name) == Some(f) && ToNumber(f, name).Err?
    ensures TrueOf(ToNumber(f, name).error, row)
  {
  }

  lemma BalanceRefusal(row: RawRow, t: Txn)
    requires MapBalances(row, t).Err?
    ensures TrueOf(MapBalances(row, t).error, row)
  {
    if ToNumber(row.oldbalanceOrg, "oldbalanceOrg").Err? {
      NumberRefusal(row, "oldbalanceOrg", row.oldbalanceOrg);
    } else if ToNumber(row.newbalanceOrig, "newbalanceOrig").Err? {
      NumberRefusal(row, "newbalanceOrig", row.newbalanceOrig);
    } else if ToNumber(row.oldbalanceDest, "oldbalanceDest").Err? {
      NumberRefusal(row, "oldbalanceDest", row.oldbalanceDest);
    } else {
      NumberRefusal(row, "newbalanceDest", row.newbalanceDest);
    }
  }

  lemma RefusalIsTrue(row: RawRow, digest: string -> string)
    requires MapRow(row, digest).Err?
    ensures TrueOf(MapRow(row, digest).error, row)
  {
    TrimVisibleExactly(row.nameOrig);
    TrimVisibleExactly(row.nameDest);
    NumberAccepts(row.step, "step");
    NumberAccepts(row.amount, "amount");
    if ToNumber(row.step, "step").Err? {
      NumberRefusal(row, "step", row.step);
    } else if ToNumber(row.amount, "amount").Err? {
      NumberRefusal(row, "amount", row.amount);
    } else {
      var t := Txn(TxnIdOf(row, digest), Upper(Trim(row.kind)), row.amount.number.value,
                   Trim(row.nameOrig), Trim(row.nameDest), 0.0, 0.0, 0.0, 0.0,
                   StepToTimestamp(row.step.number.value.Floor));
      if MapBalances(row, t).Err? {
        BalanceRefusal(row, t);
      }
    }
  }

  lemma TrimVisibleExactly(s: string)
    ensures Trim(s) != "" <==> Visible(s)
  {
    TrimVisible(s);
    if !Visible(s) {
      BlankTrims(s);
    }
  }

  lemma {:induction false} BlankTrims(s: string)
    requires !Visible(s)
    ensures TrimStart(s) == ""
  {
    if s != "" {
      assert Blank(s[0]);
      assert !Visible(s[1..]) by {
        forall i | 0 <= i < |s[1..]| ensures Blank(s[1..][i]) {
          assert s[1..][i] == s[i + 1];
        }
      }
      BlankTrims(s[1..]);
    }
  }

  // ---- does the natural key identify the row? ---------------------------------------

  predicate NoBar(s: string) {
    forall i :: 0 <= i < |s| ==> s[i] != '|'
  }

  /** Position of the first bar, or the length. */
  function FirstBar(s: string): nat {
    if s == "" || s[0] == '|' then 0 else 1 + FirstBar(s[1..])
  }

  lemma {:induction false} FirstBarAfter(a: string, x: string)
    requires NoBar(a)
    ensures FirstBar(a + "|" + x) == |a|
  {
    if a != "" {
      assert (a + "|" + x)[1..] == a[1..] + "|" + x;
      FirstBarAfter(a[1..], x);
    } else {
      assert (a + "|" + x)[0] == '|';
    }
  }

  lemma BarSplits(a: string, x: string, b: string, y: string)
    requires a + "|" + x == b + "|" + y && NoBar(a) && NoBar(b)
    ensures a == b && x == y
  {
    FirstBarAfter(a, x);
    FirstBarAfter(b, y);
    var k, l := a + "|" + x, b + "|" + y;
    assert k[..|a|] == a && l[..|b|] == b;
    assert k[|a| + 1..] == x && l[|b| + 1..] == y;
  }

  lemma KeyNests(s: string, k: string, a: string, f: string, t: string)
    ensures NaturalKey(s, k, a, f, t) == s + "|" + (k + "|" + (a + "|" + (f + "|" + t)))
  {
  }

  /** Parts whose first four hold no bar get the same key only if all five agree. */
  lemma KeyIdentifiesParts(s: string, k: string, a: string, f: string, t: string,
                           s': string, k': string, a': string, f': string, t': string)
    requires NoBar(s) && NoBar(k) && NoBar(a) && NoBar(f) && NoBar(s') && NoBar(k') && NoBar(a') && NoBar(f')
    requires NaturalKey(s, k, a, f, t) == NaturalKey(s', k', a', f', t')
    ensures s == s' && k == k' && a == a' && f == f' && t == t'
  {
    var r3, r3' := f + "|" + t, f' + "|" + t';
    var r2, r2' := a + "|" + r3, a' + "|" + r3';
    var r1, r1' := k + "|" + r2, k' + "|" + r2';
    KeyNests(s, k, a, f, t);
    KeyNests(s', k', a', f', t');
    BarSplits(s, r1, s', r1');
    BarSplits(k, r2, k', r2');
    BarSplits(a, r3, a', r3');
    BarSplits(f, t, f', t');
  }

  function Bars(s: string): nat {
    if s == "" then 0 else (if s[0] == '|' then 1 else 0) + Bars(s[1..])
  }

  lemma {:induction false} BarsAdd(a: string, b: string)
    ensures Bars(a + b) == Bars(a) + Bars(b)
  {
    if a == "" {
      assert a + b == b;
    } else {
      assert (a + b)[1..] == a[1..] + b;
      BarsAdd(a[1..], b);
    }
  }

  lemma {:induction false} NoneCounted(s: string)
    ensures Bars(s) == 0 <==> NoBar(s)
  {
    if s != "" {
      NoneCounted(s[1..]);
      assert forall i :: 0 < i < |s| ==> s[i] == s[1..][i - 1];
    }
  }

  lemma BarBetween(a: string, b: string)
    ensures Bars(a + "|" + b) == Bars(a) + 1 + Bars(b)
  {
    BarsAdd(a + "|", b);
    BarsAdd(a, "|");
    assert Bars("|") == 1 + Bars("|"[1..]);
  }

  lemma BarsOfKey(s: string, k: string, a: string, f: string, t: string)
    ensures Bars(NaturalKey(s, k, a, f, t)) == 4 + Bars(s) + Bars(k) + Bars(a) + Bars(f) + Bars(t)
  {
    KeyNests(s, k, a, f, t);
    BarBetween(f, t);
    BarBetween(a, f + "|" + t);
    BarBetween(k, a + "|" + (f + "|" + t));
    BarBetween(s, k + "|" + (a + "|" + (f + "|" + t)));
  }

  /** No other five parts have this key. */
  ghost predicate Identifies(s: string, k: string, a: string, f: string, t: string) {
    forall s', k', a', f', t' :: NaturalKey(s', k', a', f', t') == NaturalKey(s, k, a, f, t) ==>
      s' == s && k' == k && a' == a && f' == f && t' == t
  }

  lemma NoBarsIdentify(s: string, k: string, a: string, f: string, t: string)
    requires NoBar(s) && NoBar(k) && NoBar(a) && NoBar(f) && NoBar(t)
    ensures Identifies(s, k, a, f, t)
  {
    NoneCounted(s); NoneCounted(k); NoneCounted(a); NoneCounted(f); NoneCounted(t);
    forall s', k', a', f', t' | NaturalKey(s', k', a', f', t') == NaturalKey(s, k, a, f, t)
      ensures s' == s && k' == k && a' == a && f' == f && t' == t
    {
      BarsOfKey(s, k, a, f, t);
      BarsOfKey(s', k', a', f', t');
      NoneCounted(s'); NoneCounted(k'); NoneCounted(a'); NoneCounted(f');
      KeyIdentifiesParts(s, k, a, f, t, s', k', a', f', t');
    }
  }

  /** A text with a bar, cut at it. */
  lemma CutAtBar(x: string) returns (l: string, r: string)
    requires !NoBar(x)
    ensures x == l + "|" + r && |l| < |x|
  {
    var i :| 0 <= i < |x| && x[i] == '|';
    l, r := x[..i], x[i + 1..];
    assert x == x[..i] + [x[i]] + x[i + 1..];
  }

  lemma MoveBar(a: string, l: string, r: string)
    ensures a + "|" + (l + "|" + r) == (a + "|" + l) + "|" + r
  {
  }

  lemma BarInStepOrType(s: string, k: string, a: string, f: string, t: string)
    requires !NoBar(s) || !NoBar(k)
    ensures !Identifies(s, k, a, f, t)
  {
    var rest := a + "|" + (f + "|" + t);
    KeyNests(s, k, a, f, t);
    if !NoBar(s) {
      var l, r := CutAtBar(s);
      MoveBar(l, r, k);
      MoveBar(l, r + "|" + k, rest);
      KeyNests(l, r + "|" + k, a, f, t);
      assert NaturalKey(l, r + "|" + k, a, f, t) == NaturalKey(s, k, a, f, t);
    } else {
      var l, r := CutAtBar(k);
      MoveBar(s, l, r);
      KeyNests(s + "|" + l, r, a, f, t);
      assert s + "|" + (l + "|" + r + "|" + rest) == s + "|" + l + "|" + (r + "|" + rest);
      assert NaturalKey(s + "|" + l, r, a, f, t) == NaturalKey(s, k, a, f, t);
    }
  }

  lemma BarInAmountOrNames(s: string, k: string, a: string, f: string, t: string)
    requires !NoBar(a) || !NoBar(f) || !NoBar(t)
    ensures !Identifies(s, k, a, f, t)
  {
    KeyNests(s, k, a, f, t);
    if !NoBar(a) {
      var l, r := CutAtBar(a);
      KeyNests(s, k + "|" + l, r, f, t);
      assert k + "|" + (l + "|" + r + "|" + (f + "|" + t)) == k + "|" + l + "|" + (r + "|" + (f + "|" + t));
      assert NaturalKey(s, k + "|" + l, r, f, t) == NaturalKey(s, k, a, f, t);
    } else if !NoBar(f) {
      var l, r := CutAtBar(f);
      KeyNests(s, k, a + "|" + l, r, t);
      assert a + "|" + (l + "|" + r + "|" + t) == a + "|" + l + "|" + (r + "|" + t);
      assert NaturalKey(s, k, a + "|" + l, r, t) == NaturalKey(s, k, a, f, t);
    } else {
      var l, r := CutAtBar(t);
      KeyNests(s, k, a, f + "|" + l, r);
      assert f + "|" + (l + "|" + r) == f + "|" + l + "|" + r;
      assert NaturalKey(s, k, a, f + "|" + l, r) == NaturalKey(s, k, a, f, t);
    }
  }

  /** A natural key determines its row exactly when no part holds a bar. */
  lemma KeyIdentifiesExactly(s: string, k: string, a: string, f: string, t: string)
    ensures Identifies(s, k, a, f, t) <==> NoBar(s) && NoBar(k) && NoBar(a) && NoBar(f) && NoBar(t)
  {
    if NoBar(s) && NoBar(k) && NoBar(a) && NoBar(f) && NoBar(t) {
      NoBarsIdentify(s, k, a, f, t);
    } else if !NoBar(s) || !NoBar(k) {
      BarInStepOrType(s, k, a, f, t);
    } else {
      BarInAmountOrNames(s, k, a, f, t);
    }
  }

  // ---- ... among the rows that are accepted? ----------------------------------------------------

  /** A name as it is stored. */
  predicate Clean(s: string) {
    s != "" && Trim(s) == s
  }

  /** `x` can be cut at the bar at `p` into two names. */
  predicate CutsAt(x: string, p: nat) {
    p < |x| && x[p] == '|' && Clean(x[..p]) && Clean(x[p + 1..])
  }

  /** The text of a number holds no bar: Number(...) of one that does is not finite. */
  predicate BarFree(f: Field) {
    f.Entry? && f.number.Some? ==> NoBar(f.text)
  }

  predicate Importable(row: RawRow, digest: string -> string) {
    MapRow(row, digest).Ok? && BarFree(row.step) && BarFree(row.amount)
  }

  function RowKey(row: RawRow): string {
    NaturalKey(TextOfField(row.step), Upper(Trim(row.kind)), TextOfField(row.amount),
               Trim(row.nameOrig), Trim(row.nameDest))
  }

  predicate SameParts(row: RawRow, r: RawRow) {
    && TextOfField(row.step) == TextOfField(r.step) && Upper(Trim(row.kind)) == Upper(Trim(r.kind))
    && TextOfField(row.amount) == TextOfField(r.amount)
    && Trim(row.nameOrig) == Trim(r.nameOrig) && Trim(row.nameDest) == Trim(r.nameDest)
  }

  function Names(row: RawRow): string {
    Trim(row.nameOrig) + "|" + Trim(row.nameDest)
  }

  lemma TrimmedIsClean(s: string)
    ensures Clean(Trim(s)) <==> Visible(s)
  {
    TrimIsIdempotent(s);
    TrimVisibleExactly(s);
  }

  lemma TypesHoldNoBar(kind: string)
    requires kind in PAYSIM_TXN_TYPES
    ensures NoBar(kind)
  {
    assert kind == "TRANSFER" || kind == "CASH_OUT" || kind == "PAYMENT" || kind == "CASH_IN" || kind == "DEBIT";
  }

  lemma ImportableParts(row: RawRow, digest: string -> string)
    requires Importable(row, digest)
    ensures NoBar(TextOfField(row.step)) && NoBar(Upper(Trim(row.kind))) && NoBar(TextOfField(row.amount))
    ensures Clean(Trim(row.nameOrig)) && Clean(Trim(row.nameDest))
  {
    MapRowAccepts(row, digest);
    TrimmedIsClean(row.nameOrig);
    TrimmedIsClean(row.nameDest);
    TypesHoldNoBar(Upper(Trim(row.kind)));
  }

  /** Two importable rows share a key exactly when they agree in step, type and amount,
      and in what their names spell with the bar between them. */
  lemma KeyOfImportable(row: RawRow, r: RawRow, digest: string -> string)
    requires Importable(row, digest) && Importable(r, digest)
    ensures RowKey(row) == RowKey(r) <==>
              && TextOfField(row.step) == TextOfField(r.step) && Upper(Trim(row.kind)) == Upper(Trim(r.kind))
              && TextOfField(row.amount) == TextOfField(r.amount) && Names(row) == Names(r)
  {
    ImportableParts(row, digest);
    ImportableParts(r, digest);
    var s, k, a := TextOfField(row.step), Upper(Trim(row.kind)), TextOfField(row.amount);
    var s', k', a' := TextOfField(r.step), Upper(Trim(r.kind)), TextOfField(r.amount);
    KeyNests(s, k, a, Trim(row.nameOrig), Trim(row.nameDest));
    KeyNests(s', k', a', Trim(r.nameOrig), Trim(r.nameDest));
    if RowKey(row) == RowKey(r) {
      BarSplits(s, k + "|" + (a + "|" + Names(row)), s', k' + "|" + (a' + "|" + Names(r)));
      BarSplits(k, a + "|" + Names(row), k', a' + "|" + Names(r));
      BarSplits(a, Names(row), a', Names(r));
    }
  }

  /** Only its names decide whether a changed row stays importable. */
  lemma Renamed(row: RawRow, f: string, t: string, digest: string -> string)
    requires Importable(row, digest) && Clean(f) && Clean(t)
    ensures Importable(row.(nameOrig := f, nameDest := t), digest)
  {
    MapRowAccepts(row, digest);
    MapRowAccepts(row.(nameOrig := f, nameDest := t), digest);
    TrimmedIsClean(f);
    TrimmedIsClean(t);
  }

  /** `r` is another row with the same key. */
  predicate Collides(row: RawRow, r: RawRow, digest: string -> string) {
    Importable(r, digest) && RowKey(r) == RowKey(row) && !SameParts(row, r)
  }

  lemma RenamedKey(row: RawRow, f: string, t: string)
    requires Clean(f) && Clean(t) && Names(row) == f + "|" + t
    ensures RowKey(row.(nameOrig := f, nameDest := t)) == RowKey(row)
  {
    var s, k, a := TextOfField(row.step), Upper(Trim(row.kind)), TextOfField(row.amount);
    KeyNests(s, k, a, Trim(row.nameOrig), Trim(row.nameDest));
    KeyNests(s, k, a, f, t);
  }

  lemma OtherNames(row: RawRow, f: string, t: string, digest: string -> string)
    requires Importable(row, digest) && Clean(f) && Clean(t)
    requires Names(row) == f + "|" + t && f != Trim(row.nameOrig)
    ensures Collides(row, row.(nameOrig := f, nameDest := t), digest)
  {
    Renamed(row, f, t, digest);
    RenamedKey(row, f, t);
  }

  lemma CutParts(x: string, p: nat)
    requires p < |x| && x[p] == '|'
    ensures x == x[..p] + "|" + x[p + 1..] && |x[..p]| == p
  {
  }

  lemma OtherCut(row: RawRow, p: nat, digest: string -> string) returns (r: RawRow)
    requires Importable(row, digest) && p != |Trim(row.nameOrig)| && CutsAt(Names(row), p)
    ensures Collides(row, r, digest)
  {
    var f, t := Names(row)[..p], Names(row)[p + 1..];
    CutParts(Names(row), p);
    OtherNames(row, f, t, digest);
    r := row.(nameOrig := f, nameDest := t);
  }

  lemma CutOfOther(row: RawRow, r: RawRow, digest: string -> string) returns (p: nat)
    requires Importable(row, digest) && Collides(row, r, digest)
    ensures p != |Trim(row.nameOrig)| && CutsAt(Names(row), p)
  {
    KeyOfImportable(row, r, digest);
    ImportableParts(r, digest);
    var f, t := Trim(r.nameOrig), Trim(r.nameDest);
    p := |f|;
    assert Names(row) == f + "|" + t && (f + "|" + t)[..p] == f && (f + "|" + t)[p + 1..] == t;
    if p == |Trim(row.nameOrig)| {
      SameCut(Trim(row.nameOrig), Trim(row.nameDest), f, t);
    }
  }

  /** An importable row shares its key with a different importable row exactly when its
      names, joined by the bar, can be cut into two names at another bar as well. */
  lemma SharedKeyExactly(row: RawRow, digest: string -> string)
    requires Importable(row, digest)
    ensures (exists r :: Collides(row, r, digest))
            <==> exists p: nat :: p != |Trim(row.nameOrig)| && CutsAt(Names(row), p)
  {
    if p: nat :| p != |Trim(row.nameOrig)| && CutsAt(Names(row), p) {
      var r := OtherCut(row, p, digest);
    }
    if r :| Collides(row, r, digest) {
      var p := CutOfOther(row, r, digest);
    }
  }

  lemma SameCut(f: string, t: string, f': string, t': string)
    requires f + "|" + t == f' + "|" + t' && |f| == |f'|
    ensures f == f' && t == t'
  {
    var x, y := f + "|" + t, f' + "|" + t';
    assert f == x[..|f|] && f' == y[..|f'|] && t == x[|f| + 1..] && t' == y[|f'| + 1..];
  }

  /** A debit of 5 from `sender` to `receiver`. */
  function Debit(sender: string, receiver: string): RawRow {
    var zero := Entry("0", Some(0.0));
    RawRow(Entry("1", Some(1.0)), "DEBIT", Entry("5", Some(5.0)), sender, receiver, zero, zero, zero, zero, "")
  }

  lemma CleanEnds(s: string)
    requires s != "" && !Blank(s[0]) && !Blank(s[|s| - 1])
    ensures Clean(s)
  {
  }

  /** Two pairs of names that spell the same with a bar between them. */
  lemma TwoPairs() returns (f: string, t: string, f': string, t': string)
    ensures f == "a|b" && t == "c" && f' == "a" && t' == "b|c"
    ensures Clean(f) && Clean(t) && Clean(f') && Clean(t') && f + "|" + t == f' + "|" + t'
  {
    f, t, f', t' := "a|b", "c", "a", "b|c";
    CleanEnds(f);
    CleanEnds(t);
    CleanEnds(f');
    CleanEnds(t');
  }

  lemma DebitIsAType(kind: string)
    requires kind == "DEBIT"
    ensures Upper(Trim(kind)) in PAYSIM_TXN_TYPES
  {
    CleanEnds(kind);
    assert Upper(kind) == "DEBIT";
  }

  lemma DebitIsImportable(row: RawRow, digest: string -> string)
    requires row == Debit(row.nameOrig, row.nameDest) && Clean(row.nameOrig) && Clean(row.nameDest)
    ensures Importable(row, digest)
  {
    TrimmedIsClean(row.nameOrig);
    TrimmedIsClean(row.nameDest);
    DebitIsAType(row.kind);
    MapRowAccepts(row, digest);
  }

  /** Two debits that can be imported, by "a|b" to "c" and by "a" to "b|c", share a
      key: the second is skipped as a duplicate. */
  lemma BarsCollide(digest: string -> string) returns (row: RawRow, r: RawRow)
    ensures row == Debit("a|b", "c") && r == Debit("a", "b|c")
    ensures Importable(row, digest) && Collides(row, r, digest)
  {
    var f, t, f', t' := TwoPairs();
    row, r := Debit(f, t), Debit(f', t');
    DebitIsImportable(row, digest);
    DebitIsImportable(r, digest);
    KeyOfImportable(row, r, digest);
  }
}
