/**
  Tenant isolation: a condition that tests the tenant of every ruled source after all joins sees
  exactly the rows it would see if every other tenant's rows had been deleted beforehand.
 */
module TenantIsolation {
  import opened Wrappers
  import opened SqlExpr
  import opened Statement
  import opened Relational

  /** What the proof fixes once: the query, the rules, the tenant and the evaluation. */
  datatype World = World(q: Query, rules: Rules, tenant: Value, env: Env)
  {
    ghost predicate Wide(rows: seq<Row>, n: nat) {
      n <= |q.joins| + 1 && forall r :: r in rows ==> |r| == n
    }

    function OwnRows(rows: seq<Row>): seq<Row>
      requires forall r :: r in rows ==> |r| <= |q.joins| + 1
    {
      if rows == [] then []
      else if OwnRow(q, rows[0], rules, tenant) then [rows[0]] + OwnRows(rows[1..])
      else OwnRows(rows[1..])
    }

    function Rule(i: nat): Option<string>
      requires i <= |q.joins|
    {
      RuleOf(q, i, rules)
    }

    function Own(ts: seq<Tuple>, i: nat): seq<Tuple>
      requires i <= |q.joins|
    {
      OwnTuples(ts, Rule(i), tenant)
    }
  }

  lemma {:induction false} OwnCons(w: World, r: Row, rows: seq<Row>, n: nat)
    requires w.Wide(rows, n) && |r| == n
    ensures w.Wide([r] + rows, n)
    ensures w.OwnRows([r] + rows) ==
            if OwnRow(w.q, r, w.rules, w.tenant) then [r] + w.OwnRows(rows) else w.OwnRows(rows)
  {
    assert ([r] + rows)[1..] == rows;
  }

  lemma {:induction false} OwnAppend(w: World, a: seq<Row>, b: seq<Row>, n: nat)
    requires w.Wide(a, n) && w.Wide(b, n)
    ensures w.Wide(a + b, n) && w.OwnRows(a + b) == w.OwnRows(a) + w.OwnRows(b)
  {
    if a == [] {
      assert a + b == b;
    } else {
      var r, t := a[0], a[1..];
      assert a == [r] + t && a + b == [r] + (t + b);
      OwnAppend(w, t, b, n);
      OwnCons(w, r, t, n);
      OwnCons(w, r, t + b, n);
      Cat([r], w.OwnRows(t), w.OwnRows(b));
    }
  }

  lemma {:induction false} OwnSnoc(w: World, r: Row, x: Option<Tuple>)
    requires |r| <= |w.q.joins|
    ensures OwnRow(w.q, r + [x], w.rules, w.tenant) <==>
            OwnRow(w.q, r, w.rules, w.tenant) && OwnEntry(x, w.Rule(|r|), w.tenant)
  {
    var s := r + [x];
    assert forall i :: 0 <= i < |r| ==> s[i] == r[i];
    assert s[|r|] == x;
  }

  lemma {:induction false} OwnTuplesTwice(ts: seq<Tuple>, rule: Option<string>, tenant: Value)
    ensures OwnTuples(OwnTuples(ts, rule, tenant), rule, tenant) == OwnTuples(ts, rule, tenant)
  {
    if rule.Some? && ts != [] {
      OwnTuplesTwice(ts[1..], rule, tenant);
      var own := OwnTuples(ts[1..], rule, tenant);
      assert ([ts[0]] + own)[1..] == own;
    }
  }

  // ---- one left row ----

  lemma {:induction false} MatchesWide(w: World, r: Row, ts: seq<Tuple>, on: Expr)
    requires |r| <= |w.q.joins|
    ensures w.Wide(Matches(r, ts, on, Names(w.q), w.env), |r| + 1)
  {
    if ts != [] {
      MatchesWide(w, r, ts[1..], on);
    }
  }

  lemma {:induction false} MatchesStep(w: World, r: Row, t: Tuple, us: seq<Tuple>, on: Expr)
    requires |r| <= |w.q.joins|
    ensures var n, names, row := |r|, Names(w.q), r + [Some(t)];
            var rows, more := Matches(r, [t] + us, on, names, w.env), Matches(r, us, on, names, w.env);
            && w.Wide(rows, n + 1) && w.Wide(more, n + 1)
            && w.OwnRows(rows) ==
               if Holds(on, row, names, w.env) && OwnRow(w.q, r, w.rules, w.tenant) && OwnEntry(Some(t), w.Rule(n), w.tenant)
               then [row] + w.OwnRows(more) else w.OwnRows(more)
  {
    MatchesWide(w, r, us, on);
    assert ([t] + us)[1..] == us;
    OwnSnoc(w, r, Some(t));
    OwnCons(w, r + [Some(t)], Matches(r, us, on, Names(w.q), w.env), |r| + 1);
  }

  /** A foreign left row makes no own row; an own one makes the same rows from the own tuples. */
  lemma {:induction false} MatchesOwn(w: World, r: Row, ts: seq<Tuple>, on: Expr)
    requires |r| <= |w.q.joins|
    ensures var n, names := |r|, Names(w.q);
            var ms, ns := Matches(r, ts, on, names, w.env), Matches(r, w.Own(ts, n), on, names, w.env);
            && w.Wide(ms, n + 1) && w.Wide(ns, n + 1)
            && w.OwnRows(ms) == (if OwnRow(w.q, r, w.rules, w.tenant) then w.OwnRows(ns) else [])
  {
    MatchesWide(w, r, ts, on);
    if ts != [] {
      var t, us := ts[0], ts[1..];
      assert ts == [t] + us;
      MatchesOwn(w, r, us, on);
      MatchesStep(w, r, t, us, on);
      MatchesStep(w, r, t, w.Own(us, |r|), on);
    }
  }

  lemma {:induction false} PartOwn(w: World, r: Row, keep: bool, ts: seq<Tuple>, on: Expr)
    requires |r| <= |w.q.joins|
    ensures var n, names := |r|, Names(w.q);
            var ms, ns := Part(r, keep, ts, on, names, w.env), Part(r, keep, w.Own(ts, n), on, names, w.env);
            && w.Wide(ms, n + 1) && w.Wide(ns, n + 1)
            && w.OwnRows(ms) == (if OwnRow(w.q, r, w.rules, w.tenant) then w.OwnRows(ns) else [])
  {
    MatchesOwn(w, r, ts, on);
    OwnSnoc(w, r, None);
    assert [r + [None]][1..] == [];
  }

  lemma {:induction false} LeftWide(w: World, acc: seq<Row>, n: nat, keep: bool, ts: seq<Tuple>, on: Expr)
    requires w.Wide(acc, n) && n <= |w.q.joins|
    ensures w.Wide(LeftSide(acc, keep, ts, on, Names(w.q), w.env), n + 1)
  {
    if acc != [] {
      PartOwn(w, acc[0], keep, ts, on);
      LeftWide(w, acc[1..], n, keep, ts, on);
    }
  }

  lemma {:induction false} OwnRowsWide(w: World, acc: seq<Row>, n: nat)
    requires w.Wide(acc, n)
    ensures w.Wide(w.OwnRows(acc), n)
  {
    if acc != [] {
      OwnRowsWide(w, acc[1..], n);
    }
  }

  lemma {:induction false} LeftCons(w: World, r: Row, rest: seq<Row>, n: nat, keep: bool, ts: seq<Tuple>, on: Expr)
    requires w.Wide(rest, n) && |r| == n <= |w.q.joins|
    ensures var names := Names(w.q);
            && w.Wide(LeftSide([r] + rest, keep, ts, on, names, w.env), n + 1)
            && w.Wide(Part(r, keep, ts, on, names, w.env), n + 1) && w.Wide(LeftSide(rest, keep, ts, on, names, w.env), n + 1)
            && w.OwnRows(LeftSide([r] + rest, keep, ts, on, names, w.env))
               == w.OwnRows(Part(r, keep, ts, on, names, w.env)) + w.OwnRows(LeftSide(rest, keep, ts, on, names, w.env))
  {
    PartOwn(w, r, keep, ts, on);
    LeftWide(w, rest, n, keep, ts, on);
    assert ([r] + rest)[1..] == rest;
    OwnAppend(w, Part(r, keep, ts, on, Names(w.q), w.env), LeftSide(rest, keep, ts, on, Names(w.q), w.env), n + 1);
  }

  /** Joining only the own rows with only the own tuples makes the same own rows. */
  ghost predicate LeftAlike(w: World, acc: seq<Row>, n: nat, keep: bool, ts: seq<Tuple>, on: Expr)
    requires w.Wide(acc, n) && n <= |w.q.joins|
  {
    var names, own := Names(w.q), w.OwnRows(acc);
    && w.Wide(LeftSide(acc, keep, ts, on, names, w.env), n + 1)
    && w.Wide(LeftSide(own, keep, w.Own(ts, n), on, names, w.env), n + 1)
    && w.OwnRows(LeftSide(acc, keep, ts, on, names, w.env))
       == w.OwnRows(LeftSide(own, keep, w.Own(ts, n), on, names, w.env))
  }

  lemma {:induction false} LeftStep(w: World, r: Row, rest: seq<Row>, n: nat, keep: bool, ts: seq<Tuple>, on: Expr)
    requires w.Wide(rest, n) && |r| == n <= |w.q.joins| && LeftAlike(w, rest, n, keep, ts, on)
    ensures w.Wide([r] + rest, n) && LeftAlike(w, [r] + rest, n, keep, ts, on)
  {
    var own := w.OwnRows(rest);
    OwnCons(w, r, rest, n);
    OwnRowsWide(w, rest, n);
    PartOwn(w, r, keep, ts, on);
    LeftCons(w, r, rest, n, keep, ts, on);
    if OwnRow(w.q, r, w.rules, w.tenant) {
      LeftCons(w, r, own, n, keep, w.Own(ts, n), on);
    }
  }

  lemma {:induction false} LeftOwn(w: World, acc: seq<Row>, n: nat, keep: bool, ts: seq<Tuple>, on: Expr)
    requires w.Wide(acc, n) && n <= |w.q.joins|
    ensures LeftAlike(w, acc, n, keep, ts, on)
  {
    if acc != [] {
      LeftOwn(w, acc[1..], n, keep, ts, on);
      LeftStep(w, acc[0], acc[1..], n, keep, ts, on);
      assert acc == [acc[0]] + acc[1..];
    }
  }

  // ---- unmatched right tuples ----

  lemma {:induction false} UnmatchedWide(w: World, acc: seq<Row>, n: nat, ts: seq<Tuple>, on: Expr)
    requires n <= |w.q.joins|
    ensures w.Wide(Unmatched(acc, n, ts, on, Names(w.q), w.env), n + 1)
  {
    if ts != [] {
      UnmatchedWide(w, acc, n, ts[1..], on);
    }
  }

  /** With a ruled source on the left, a row padded on the left is never an own row. */
  lemma {:induction false} UnmatchedRuled(w: World, acc: seq<Row>, n: nat, ts: seq<Tuple>, on: Expr, i: nat)
    requires i < n <= |w.q.joins| && w.Rule(i).Some?
    ensures w.Wide(Unmatched(acc, n, ts, on, Names(w.q), w.env), n + 1)
    ensures w.OwnRows(Unmatched(acc, n, ts, on, Names(w.q), w.env)) == []
  {
    UnmatchedWide(w, acc, n, ts, on);
    if ts != [] {
      UnmatchedRuled(w, acc, n, ts[1..], on, i);
      var r, us := Pad(n) + [Some(ts[0])], Unmatched(acc, n, ts[1..], on, Names(w.q), w.env);
      assert r[i] == None && !OwnEntry(r[i], w.Rule(i), w.tenant);
      OwnCons(w, r, us, n + 1);
    }
  }

  lemma {:induction false} UnmatchedStep(w: World, acc: seq<Row>, n: nat, t: Tuple, us: seq<Tuple>, on: Expr)
    requires n <= |w.q.joins| && forall i :: 0 <= i < n ==> w.Rule(i).None?
    ensures var names, row := Names(w.q), Pad(n) + [Some(t)];
            var rows, more := Unmatched(acc, n, [t] + us, on, names, w.env), Unmatched(acc, n, us, on, names, w.env);
            var hit := exists r :: r in acc && Holds(on, r + [Some(t)], names, w.env);
            && w.Wide(rows, n + 1) && w.Wide(more, n + 1)
            && w.OwnRows(rows) ==
               if !hit && OwnEntry(Some(t), w.Rule(n), w.tenant) then [row] + w.OwnRows(more) else w.OwnRows(more)
  {
    var more := Unmatched(acc, n, us, on, Names(w.q), w.env);
    UnmatchedWide(w, acc, n, us, on);
    assert ([t] + us)[1..] == us;
    OwnSnoc(w, Pad(n), Some(t));
    assert OwnRow(w.q, Pad(n), w.rules, w.tenant) by {
      assert forall i :: 0 <= i < n ==> RuleOf(w.q, i, w.rules) == w.Rule(i);
    }
    OwnCons(w, Pad(n) + [Some(t)], more, n + 1);
  }

  /** Without one, deleting foreign tuples deletes only foreign rows. */
  lemma {:induction false} UnmatchedOwn(w: World, acc: seq<Row>, n: nat, ts: seq<Tuple>, on: Expr)
    requires n <= |w.q.joins| && forall i :: 0 <= i < n ==> w.Rule(i).None?
    ensures var names := Names(w.q);
            && w.Wide(Unmatched(acc, n, ts, on, names, w.env), n + 1)
            && w.Wide(Unmatched(acc, n, w.Own(ts, n), on, names, w.env), n + 1)
            && w.OwnRows(Unmatched(acc, n, ts, on, names, w.env)) == w.OwnRows(Unmatched(acc, n, w.Own(ts, n), on, names, w.env))
  {
    UnmatchedWide(w, acc, n, ts, on);
    if ts != [] && w.Rule(n).Some? {
      var t, us := ts[0], ts[1..];
      assert ts == [t] + us;
      UnmatchedOwn(w, acc, n, us, on);
      UnmatchedStep(w, acc, n, t, us, on);
      UnmatchedStep(w, acc, n, t, w.Own(us, n), on);
    }
  }

  lemma {:induction false} AllOwn(w: World, acc: seq<Row>, n: nat)
    requires w.Wide(acc, n) && forall i :: 0 <= i < n ==> w.Rule(i).None?
    ensures w.OwnRows(acc) == acc
  {
    if acc != [] {
      AllOwn(w, acc[1..], n);
      assert forall i :: 0 <= i < n ==> RuleOf(w.q, i, w.rules) == w.Rule(i);
      assert acc == [acc[0]] + acc[1..];
    }
  }

  // ---- the chain ----

  /** One join, of any kind: own rows of the left side and own tuples of the right are enough. */
  lemma {:induction false} JoinOwn(w: World, acc: seq<Row>, n: nat, kind: JoinKind, ts: seq<Tuple>, on: Expr)
    requires w.Wide(acc, n) && n <= |w.q.joins|
    ensures var names := Names(w.q);
            && w.Wide(JoinRows(acc, n, kind, ts, on, names, w.env), n + 1)
            && w.Wide(JoinRows(w.OwnRows(acc), n, kind, w.Own(ts, n), on, names, w.env), n + 1)
            && w.OwnRows(JoinRows(acc, n, kind, ts, on, names, w.env))
               == w.OwnRows(JoinRows(w.OwnRows(acc), n, kind, w.Own(ts, n), on, names, w.env))
  {
    var names, own, us, keep := Names(w.q), w.OwnRows(acc), w.Own(ts, n), kind.Left? || kind.Full?;
    LeftOwn(w, acc, n, keep, ts, on);
    if kind.Right? || kind.Full? {
      if i :| 0 <= i < n && w.Rule(i).Some? {
        UnmatchedRuled(w, acc, n, ts, on, i);
        UnmatchedRuled(w, own, n, us, on, i);
      } else {
        AllOwn(w, acc, n);
        UnmatchedOwn(w, acc, n, ts, on);
      }
      OwnAppend(w, LeftSide(acc, keep, ts, on, names, w.env), Unmatched(acc, n, ts, on, names, w.env), n + 1);
      OwnAppend(w, LeftSide(own, keep, us, on, names, w.env), Unmatched(own, n, us, on, names, w.env), n + 1);
    } else {
      OwnAppend(w, LeftSide(acc, keep, ts, on, names, w.env), [], n + 1);
      OwnAppend(w, LeftSide(own, keep, us, on, names, w.env), [], n + 1);
    }
  }

  lemma {:induction false} SingleOwn(w: World, ts: seq<Tuple>)
    ensures w.Wide(Single(ts), 1) && w.Wide(Single(w.Own(ts, 0)), 1)
    ensures w.OwnRows(Single(ts)) == w.OwnRows(Single(w.Own(ts, 0)))
  {
    if ts != [] {
      SingleOwn(w, ts[1..]);
      OwnSnoc(w, [], Some(ts[0]));
      assert [] + [Some(ts[0])] == [Some(ts[0])];
      var own := w.Own(ts[1..], 0);
      OwnCons(w, [Some(ts[0])], Single(ts[1..]), 1);
      OwnCons(w, [Some(ts[0])], Single(own), 1);
      assert ([ts[0]] + own)[1..] == own;
    }
  }

  /** Two lists of rows with the same own rows. */
  ghost predicate Alike(w: World, n: nat, rows: seq<Row>, rows': seq<Row>) {
    w.Wide(rows, n + 1) && w.Wide(rows', n + 1) && w.OwnRows(rows) == w.OwnRows(rows')
  }

  /** The first n joins, on the whole database and on the restricted one. */
  ghost predicate ChainAlike(w: World, n: nat, db: Database)
    requires n <= |w.q.joins|
  {
    Alike(w, n, Rows(w.q, n, db, w.env), Rows(w.q, n, Restrict(db, w.rules, w.tenant), w.env))
  }

  lemma {:induction false} FirstOwn(w: World, db: Database)
    ensures ChainAlike(w, 0, db)
  {
    RestrictedTable(w, 0, db);
    SingleOwn(w, Table(db, SourceOf(w.q, 0)));
  }

  lemma {:induction false} NextOwn(w: World, n: nat, db: Database)
    requires 0 < n <= |w.q.joins|
    requires ChainAlike(w, n - 1, db)
    ensures ChainAlike(w, n, db)
  {
    var db' := Restrict(db, w.rules, w.tenant);
    RestrictedTable(w, n, db);
    RowsStep(w, n, db);
    RowsStep(w, n, db');
    OneJoinOwn(w, Rows(w.q, n - 1, db, w.env), Rows(w.q, n - 1, db', w.env), n, w.q.joins[n - 1], Table(db, SourceOf(w.q, n)));
  }

  /** The own rows of every join chain are those of the restricted database. */
  lemma {:induction false} RowsOwn(w: World, n: nat, db: Database)
    requires n <= |w.q.joins|
    ensures ChainAlike(w, n, db)
  {
    if n == 0 {
      FirstOwn(w, db);
    } else {
      RowsOwn(w, n - 1, db);
      NextOwn(w, n, db);
    }
  }

  lemma {:induction false} RestrictedTable(w: World, n: nat, db: Database)
    requires n <= |w.q.joins|
    ensures Table(Restrict(db, w.rules, w.tenant), SourceOf(w.q, n)) == w.Own(Table(db, SourceOf(w.q, n)), n)
  {
  }

  lemma {:induction false} RowsStep(w: World, n: nat, db: Database)
    requires n <= |w.q.joins|
    ensures var ts := Table(db, SourceOf(w.q, n));
            Rows(w.q, n, db, w.env) ==
            if n == 0 then Single(ts)
            else JoinRows(Rows(w.q, n - 1, db, w.env), n, w.q.joins[n - 1].kind, ts, w.q.joins[n - 1].on, Names(w.q), w.env)
  {
  }

  lemma {:induction false} OneJoinOwn(w: World, acc: seq<Row>, acc': seq<Row>, n: nat, j: Join, ts: seq<Tuple>)
    requires 0 < n <= |w.q.joins| && Alike(w, n - 1, acc, acc')
    ensures Alike(w, n, JoinRows(acc, n, j.kind, ts, j.on, Names(w.q), w.env),
                  JoinRows(acc', n, j.kind, w.Own(ts, n), j.on, Names(w.q), w.env))
  {
    OwnTuplesTwice(ts, w.Rule(n), w.tenant);
    JoinOwn(w, acc, n, j.kind, ts, j.on);
    JoinOwn(w, acc', n, j.kind, w.Own(ts, n), j.on);
  }

  // ---- the condition ----

  /** A condition that only own rows pass selects the same rows before and after the deletion. */
  lemma {:induction false} PassingOwn(w: World, rows: seq<Row>, n: nat)
    requires w.Wide(rows, n)
    requires forall r: Row :: |r| == n && w.q.cond.Some? && Holds(w.q.cond.value, r, Names(w.q), w.env) ==>
               OwnRow(w.q, r, w.rules, w.tenant)
    requires w.q.cond.None? ==> forall r: Row :: |r| == n ==> OwnRow(w.q, r, w.rules, w.tenant)
    ensures Passing(rows, w.q.cond, Names(w.q), w.env) == Passing(w.OwnRows(rows), w.q.cond, Names(w.q), w.env)
  {
    if rows != [] {
      PassingOwn(w, rows[1..], n);
      var own := w.OwnRows(rows[1..]);
      assert ([rows[0]] + own)[1..] == own;
    }
  }

  /** The condition lets only own rows through. */
  ghost predicate Guards(w: World) {
    forall r: Row :: |r| == |w.q.joins| + 1 && (w.q.cond.Some? ==> Holds(w.q.cond.value, r, Names(w.q), w.env)) ==>
      OwnRow(w.q, r, w.rules, w.tenant)
  }

  lemma {:induction false} TenantFilter(w: World, db: Database)
    requires Guards(w)
    ensures Surviving(w.q, db, w.env) == Surviving(w.q, Restrict(db, w.rules, w.tenant), w.env)
  {
    var n := |w.q.joins|;
    RowsOwn(w, n, db);
    PassingOwn(w, Rows(w.q, n, db, w.env), n + 1);
    PassingOwn(w, Rows(w.q, n, Restrict(db, w.rules, w.tenant), w.env), n + 1);
  }
}
