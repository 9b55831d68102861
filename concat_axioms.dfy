/** The axioms the concatenation generators emit, as pure values, and what they mean: which
    models of the solver satisfy them. */
module ConcatAxioms {
  import opened StringTerms

  /** The four axioms for `res = s1 ++ s2[start, end)`, in the order they are pushed:
      a1 `end > start ==> |res| == |s1| + (end - start)`, a2 `!(end > start) ==> |res| == |s1|`,
      a3 `forall idx < |s1|. s1[idx] == res[idx]`,
      a4 `forall idx2 < end - start. res[idx2 + |s1|] == s2[start + idx2]`. */
  function ConcatSubstrAxioms(res: SymString, s1: SymString, s2: SymString,
                              start: IntTerm, end: IntTerm, idx: Name, idx2: Name): seq<Axiom>
  {
    var prem := Gt(end, start);
    [ Implies(prem, IntEq(res.length, Add(s1.length, Sub(end, start)))),
      Implies(Not(prem), IntEq(res.length, s1.length)),
      Forall(idx, s1.length, CharEq(At(s1.content, IntVar(idx)), At(res.content, IntVar(idx)))),
      Forall(idx2, Sub(end, start), TailBody(res, s1, s2, start, idx2)) ]
  }

  /** The three axioms for `res = s1 ++ [c]`: a1 `|res| == |s1| + 1`,
      a2 `forall idx < |s1|. s1[idx] == res[idx]`, a3 `res[|s1|] == c`. */
  function ConcatCharAxioms(res: SymString, s1: SymString, c: CharTerm, idx: Name): seq<Axiom>
  {
    [ Plain(IntEq(res.length, Add(s1.length, Lit(1)))),
      Forall(idx, s1.length, CharEq(At(s1.content, IntVar(idx)), At(res.content, IntVar(idx)))),
      Plain(CharEq(At(res.content, s1.length), c)) ]
  }

  /** The relation between the values of the strings and indices in `m` that the ranged
      concatenation is meant to impose: `res` is as long as `s1` plus the (possibly empty)
      range, starts with `s1`, and continues with the cells of `s2` from `start` on. */
  predicate SubstrAppended(m: Model, res: SymString, s1: SymString, s2: SymString,
                           start: IntTerm, end: IntTerm)
  {
    Appended(m.arrays(res.content), m.arrays(s1.content), m.arrays(s2.content),
             Eval(m, res.length), Eval(m, s1.length), Eval(m, start), Eval(m, end))
  }

  /** `r` of length `len` is the `n1` cells of `c1` followed by the cells of `c2` in
      `[st, en)`. */
  predicate Appended(r: int -> CodeUnit, c1: int -> CodeUnit, c2: int -> CodeUnit, len: int, n1: int, st: int, en: int)
  {
    && len == n1 + (if en > st then en - st else 0)
    && (forall i :: 0 <= i < n1 ==> r(i) == c1(i))
    && (forall j :: n1 <= j < n1 + (en - st) ==> r(j) == c2(st + (j - n1)))
  }

  /** The four axioms hold in a model exactly when the intended relation does, provided the
      second bound variable is not read by `|s1|` or `start`. */
  lemma ConcatSubstrSemantics(m: Model, res: SymString, s1: SymString, s2: SymString,
                              start: IntTerm, end: IntTerm, idx: Name, idx2: Name)
    requires idx2 !in IntNames(s1.length) + IntNames(start)
    ensures SatisfiesAll(m, ConcatSubstrAxioms(res, s1, s2, start, end, idx, idx2))
            <==> SubstrAppended(m, res, s1, s2, start, end)
  {
    var axioms := ConcatSubstrAxioms(res, s1, s2, start, end, idx, idx2);
    assert SatisfiesAll(m, axioms) <==>
      Satisfies(m, axioms[0]) && Satisfies(m, axioms[1]) && Satisfies(m, axioms[2]) && Satisfies(m, axioms[3]);
    LengthAxioms(m, res, s1, start, end);
    PrefixAxiom(m, res, s1, idx);
    TailAxiom(m, res, s1, s2, start, end, idx2);
  }

  /** What the prefix axiom says: the first `|s1|` cells of `res` are those of `s1`. */
  lemma PrefixAxiom(m: Model, res: SymString, s1: SymString, idx: Name)
    ensures Satisfies(m, Forall(idx, s1.length, CharEq(At(s1.content, IntVar(idx)), At(res.content, IntVar(idx)))))
            <==> forall i :: 0 <= i < Eval(m, s1.length) ==> m.arrays(res.content)(i) == m.arrays(s1.content)(i)
  {
    var body := CharEq(At(s1.content, IntVar(idx)), At(res.content, IntVar(idx)));
    forall k
      ensures Holds(m, Bound(idx, k), body) <==> m.arrays(s1.content)(k) == m.arrays(res.content)(k)
    {
      assert EvalIn(m, Bound(idx, k), IntVar(idx)) == k;
    }
  }

  /** What the appending axiom says: from cell `|s1|` on, `res` repeats the cells of `s2` from
      `start` on, for `end - start` cells. */
  lemma TailAxiom(m: Model, res: SymString, s1: SymString, s2: SymString,
                  start: IntTerm, end: IntTerm, idx2: Name)
    requires idx2 !in IntNames(s1.length) + IntNames(start)
    ensures var n1, st, en := Eval(m, s1.length), Eval(m, start), Eval(m, end);
            Satisfies(m, Forall(idx2, Sub(end, start), TailBody(res, s1, s2, start, idx2)))
            <==> forall j :: n1 <= j < n1 + (en - st) ==> m.arrays(res.content)(j) == m.arrays(s2.content)(st + (j - n1))
  {
    if Satisfies(m, Forall(idx2, Sub(end, start), TailBody(res, s1, s2, start, idx2))) {
      TailAxiomSound(m, res, s1, s2, start, end, idx2);
    }
    var n1, st, en := Eval(m, s1.length), Eval(m, start), Eval(m, end);
    if forall j :: n1 <= j < n1 + (en - st) ==> m.arrays(res.content)(j) == m.arrays(s2.content)(st + (j - n1)) {
      TailAxiomComplete(m, res, s1, s2, start, end, idx2);
    }
  }

  lemma TailAxiomSound(m: Model, res: SymString, s1: SymString, s2: SymString,
                       start: IntTerm, end: IntTerm, idx2: Name)
    requires idx2 !in IntNames(s1.length) + IntNames(start)
    requires Satisfies(m, Forall(idx2, Sub(end, start), TailBody(res, s1, s2, start, idx2)))
    ensures var n1, st, en := Eval(m, s1.length), Eval(m, start), Eval(m, end);
            forall j :: n1 <= j < n1 + (en - st) ==> m.arrays(res.content)(j) == m.arrays(s2.content)(st + (j - n1))
  {
    var n1, st, en := Eval(m, s1.length), Eval(m, start), Eval(m, end);
    forall j | n1 <= j < n1 + (en - st)
      ensures m.arrays(res.content)(j) == m.arrays(s2.content)(st + (j - n1))
    {
      TailCell(m, res, s1, s2, start, end, idx2, j - n1);
    }
  }

  /** One instance of a4. */
  lemma TailCell(m: Model, res: SymString, s1: SymString, s2: SymString,
                 start: IntTerm, end: IntTerm, idx2: Name, k: int)
    requires idx2 !in IntNames(s1.length) + IntNames(start)
    requires Satisfies(m, Forall(idx2, Sub(end, start), TailBody(res, s1, s2, start, idx2)))
    requires 0 <= k < Eval(m, end) - Eval(m, start)
    ensures m.arrays(res.content)(k + Eval(m, s1.length)) == m.arrays(s2.content)(Eval(m, start) + k)
  {
    assert Eval(m, Sub(end, start)) == Eval(m, end) - Eval(m, start);
    assert Holds(m, Bound(idx2, k), TailBody(res, s1, s2, start, idx2));
    TailBodyAt(m, res, s1, s2, start, idx2, k);
  }

  lemma TailAxiomComplete(m: Model, res: SymString, s1: SymString, s2: SymString,
                          start: IntTerm, end: IntTerm, idx2: Name)
    requires idx2 !in IntNames(s1.length) + IntNames(start)
    requires var n1, st, en := Eval(m, s1.length), Eval(m, start), Eval(m, end);
             forall j :: n1 <= j < n1 + (en - st) ==> m.arrays(res.content)(j) == m.arrays(s2.content)(st + (j - n1))
    ensures Satisfies(m, Forall(idx2, Sub(end, start), TailBody(res, s1, s2, start, idx2)))
  {
    var n1, st, en := Eval(m, s1.length), Eval(m, start), Eval(m, end);
    var r, a2 := m.arrays(res.content), m.arrays(s2.content);
    var body := TailBody(res, s1, s2, start, idx2);
    assert Eval(m, Sub(end, start)) == en - st;
    forall k | 0 <= k < en - st
      ensures Holds(m, Bound(idx2, k), body)
    {
      TailBodyAt(m, res, s1, s2, start, idx2, k);
      assert r(n1 + k) == a2(st + ((n1 + k) - n1));
    }
  }

  /** The body of a4: `res[idx2 + |s1|] == s2[start + idx2]`. */
  function TailBody(res: SymString, s1: SymString, s2: SymString, start: IntTerm, idx2: Name): Formula
  {
    CharEq(At(res.content, Add(IntVar(idx2), s1.length)), At(s2.content, Add(start, IntVar(idx2))))
  }

  /** The body of a4 at one value `k` of its bound index. */
  lemma TailBodyAt(m: Model, res: SymString, s1: SymString, s2: SymString, start: IntTerm, idx2: Name, k: int)
    requires idx2 !in IntNames(s1.length) + IntNames(start)
    ensures Holds(m, Bound(idx2, k), TailBody(res, s1, s2, start, idx2))
            <==> m.arrays(res.content)(k + Eval(m, s1.length)) == m.arrays(s2.content)(Eval(m, start) + k)
  {
    var b := Bound(idx2, k);
    EvalBound(m, idx2, k, s1.length);
    EvalBound(m, idx2, k, start);
    assert EvalIn(m, b, Add(IntVar(idx2), s1.length)) == k + Eval(m, s1.length);
    assert EvalIn(m, b, Add(start, IntVar(idx2))) == Eval(m, start) + k;
  }

  /** What the two length axioms a1 and a2 say, taken together. */
  lemma LengthAxioms(m: Model, res: SymString, s1: SymString, start: IntTerm, end: IntTerm)
    ensures var prem := Gt(end, start);
            && (Satisfies(m, Implies(prem, IntEq(res.length, Add(s1.length, Sub(end, start)))))
                && Satisfies(m, Implies(Not(prem), IntEq(res.length, s1.length)))
                <==> Eval(m, res.length) == Eval(m, s1.length)
                       + (if Eval(m, end) > Eval(m, start) then Eval(m, end) - Eval(m, start) else 0))
  {
    var prem := Gt(end, start);
    var r, n1, st, en := Eval(m, res.length), Eval(m, s1.length), Eval(m, start), Eval(m, end);
    var long := IntEq(res.length, Add(s1.length, Sub(end, start)));
    var short := IntEq(res.length, s1.length);
    assert Holds(m, Unbound, prem) == (en > st);
    assert Holds(m, Unbound, Not(prem)) == !(en > st);
    assert Eval(m, Sub(end, start)) == en - st;
    assert Eval(m, Add(s1.length, Sub(end, start))) == n1 + (en - st);
    assert Holds(m, Unbound, long) == (r == n1 + (en - st));
    assert Holds(m, Unbound, short) == (r == n1);
    assert Satisfies(m, Implies(prem, long)) == (en > st ==> r == n1 + (en - st));
    assert Satisfies(m, Implies(Not(prem), short)) == (!(en > st) ==> r == n1);
  }

  /** Length law: with a non-empty range `res` is `|s1| + (end - start)` long, otherwise
      exactly as long as `s1`. */
  lemma ConcatSubstrLength(m: Model, res: SymString, s1: SymString, s2: SymString,
                           start: IntTerm, end: IntTerm, idx: Name, idx2: Name)
    requires SatisfiesAll(m, ConcatSubstrAxioms(res, s1, s2, start, end, idx, idx2))
    ensures Eval(m, end) > Eval(m, start) ==> Eval(m, res.length) == Eval(m, s1.length) + (Eval(m, end) - Eval(m, start))
    ensures Eval(m, end) <= Eval(m, start) ==> Eval(m, res.length) == Eval(m, s1.length)
  {
    var axioms := ConcatSubstrAxioms(res, s1, s2, start, end, idx, idx2);
    assert Satisfies(m, axioms[0]) && Satisfies(m, axioms[1]);
    LengthAxioms(m, res, s1, start, end);
  }

  /** Within range the axioms pin `res` down completely: it is `s1 ++ s2[start..end)`. */
  lemma ConcatSubstrInRange(m: Model, res: SymString, s1: SymString, s2: SymString,
                            start: IntTerm, end: IntTerm, idx: Name, idx2: Name)
    requires idx2 !in IntNames(s1.length) + IntNames(start)
    requires Eval(m, s1.length) >= 0
    requires 0 <= Eval(m, start) <= Eval(m, end) <= Eval(m, s2.length)
    ensures SatisfiesAll(m, ConcatSubstrAxioms(res, s1, s2, start, end, idx, idx2))
            <==> Eval(m, res.length) >= 0
                 && Value(m, res) == Value(m, s1) + Value(m, s2)[Eval(m, start)..Eval(m, end)]
  {
    ConcatSubstrSemantics(m, res, s1, s2, start, end, idx, idx2);
    var n1, st, en := Eval(m, s1.length), Eval(m, start), Eval(m, end);
    if SubstrAppended(m, res, s1, s2, start, end) {
      var want := Value(m, s1) + Value(m, s2)[st..en];
      forall i | 0 <= i < |want|
        ensures Value(m, res)[i] == want[i]
      {
        if i >= n1 {
          assert want[i] == Value(m, s2)[st + (i - n1)];
        }
      }
    }
    if Eval(m, res.length) >= 0 && Value(m, res) == Value(m, s1) + Value(m, s2)[st..en] {
      var got := Value(m, res);
      forall i | 0 <= i < n1
        ensures m.arrays(res.content)(i) == m.arrays(s1.content)(i)
      {
        assert got[i] == Value(m, s1)[i];
      }
      forall j | n1 <= j < n1 + (en - st)
        ensures m.arrays(res.content)(j) == m.arrays(s2.content)(st + (j - n1))
      {
        assert got[j] == Value(m, s2)[st + (j - n1)];
      }
    }
  }

  /** An empty or reversed range leaves `res` equal to `s1`. */
  lemma ConcatSubstrEmptyRange(m: Model, res: SymString, s1: SymString, s2: SymString,
                               start: IntTerm, end: IntTerm, idx: Name, idx2: Name)
    requires idx2 !in IntNames(s1.length) + IntNames(start)
    requires Eval(m, s1.length) >= 0
    requires Eval(m, end) <= Eval(m, start)
    requires SatisfiesAll(m, ConcatSubstrAxioms(res, s1, s2, start, end, idx, idx2))
    ensures Eval(m, res.length) >= 0 && Value(m, res) == Value(m, s1)
  {
    ConcatSubstrSemantics(m, res, s1, s2, start, end, idx, idx2);
  }

  /** Out of range the axioms can still be met, whatever the appended cells outside `s2`
      should hold: in any model where `res` already has the length the axioms ask for,
      replacing the arrays by `PaddedArrays` keeps the cells of `s1` and of `s2` inside their
      lengths (and all of `s1` when it is a different array), makes the axioms hold, and puts
      `pad` in those appended cells. `s1` and `s2` may be one and the same string, as in
      `s.concat(s)`. */
  lemma ConcatSubstrPadding(m: Model, res: SymString, s1: SymString, s2: SymString,
                            start: IntTerm, end: IntTerm, idx: Name, idx2: Name, pad: int -> CodeUnit)
    requires idx2 !in IntNames(s1.length) + IntNames(start)
    requires res.content != s1.content && res.content != s2.content
    requires s1.content == s2.content ==> s1.length == s2.length
    requires Eval(m, res.length)
             == Eval(m, s1.length) + (if Eval(m, end) > Eval(m, start) then Eval(m, end) - Eval(m, start) else 0)
    ensures var n1, n2, st, en := Eval(m, s1.length), Eval(m, s2.length), Eval(m, start), Eval(m, end);
            var arrays := PaddedArrays(m.arrays, res.content, s1.content, s2.content, n1, n2, st, pad);
            && SatisfiesAll(m.(arrays := arrays), ConcatSubstrAxioms(res, s1, s2, start, end, idx, idx2))
            && (s1.content != s2.content ==> arrays(s1.content) == m.arrays(s1.content))
            && (forall i :: 0 <= i < n1 ==> arrays(s1.content)(i) == m.arrays(s1.content)(i))
            && (forall i :: 0 <= i < n2 ==> arrays(s2.content)(i) == m.arrays(s2.content)(i))
            && (forall i :: 0 <= i < en - st && !(0 <= st + i < n2) ==> arrays(res.content)(n1 + i) == pad(i))
  {
    PaddedCells(m.arrays, res.content, s1.content, s2.content,
                Eval(m, s1.length), Eval(m, s2.length), Eval(m, start), pad);
    PaddedSatisfy(m, res, s1, s2, start, end, idx, idx2, pad);
  }

  lemma PaddedSatisfy(m: Model, res: SymString, s1: SymString, s2: SymString,
                      start: IntTerm, end: IntTerm, idx: Name, idx2: Name, pad: int -> CodeUnit)
    requires idx2 !in IntNames(s1.length) + IntNames(start)
    requires res.content != s1.content && res.content != s2.content
    requires s1.content == s2.content ==> s1.length == s2.length
    requires Eval(m, res.length)
             == Eval(m, s1.length) + (if Eval(m, end) > Eval(m, start) then Eval(m, end) - Eval(m, start) else 0)
    ensures var n1, n2, st := Eval(m, s1.length), Eval(m, s2.length), Eval(m, start);
            var arrays := PaddedArrays(m.arrays, res.content, s1.content, s2.content, n1, n2, st, pad);
            SatisfiesAll(m.(arrays := arrays), ConcatSubstrAxioms(res, s1, s2, start, end, idx, idx2))
  {
    var n1, n2, st, en := Eval(m, s1.length), Eval(m, s2.length), Eval(m, start), Eval(m, end);
    var arrays := PaddedArrays(m.arrays, res.content, s1.content, s2.content, n1, n2, st, pad);
    PaddedJoins(m.arrays, res.content, s1.content, s2.content, n1, n2, st, en, pad);
    NewArraysSatisfy(m, arrays, res, s1, s2, start, end, idx, idx2);
  }

  /** Replacing the arrays of `m` by ones that relate `res`, `s1` and `s2` as intended gives
      a model of the axioms. */
  lemma NewArraysSatisfy(m: Model, arrays: Name -> (int -> CodeUnit), res: SymString, s1: SymString, s2: SymString,
                         start: IntTerm, end: IntTerm, idx: Name, idx2: Name)
    requires idx2 !in IntNames(s1.length) + IntNames(start)
    requires Appended(arrays(res.content), arrays(s1.content), arrays(s2.content),
                      Eval(m, res.length), Eval(m, s1.length), Eval(m, start), Eval(m, end))
    ensures SatisfiesAll(m.(arrays := arrays), ConcatSubstrAxioms(res, s1, s2, start, end, idx, idx2))
  {
    EvalArrays(m, arrays, res.length);
    EvalArrays(m, arrays, s1.length);
    EvalArrays(m, arrays, start);
    EvalArrays(m, arrays, end);
    ConcatSubstrSemantics(m.(arrays := arrays), res, s1, s2, start, end, idx, idx2);
  }

  /** The arrays of the padded model, given the length `n1` of the prefix `c1`, the length `n2` of
      `c2` and the start `st` of the range appended to `r`. */
  function PaddedArrays(arrays: Name -> (int -> CodeUnit), r: Name, c1: Name, c2: Name,
                        n1: int, n2: int, st: int, pad: int -> CodeUnit): Name -> (int -> CodeUnit)
  {
    var cells2 := PadCells(arrays(c2), n2, st, pad);
    var cellsRes := JoinCells(arrays(c1), n1, cells2, st);
    a => if a == r then cellsRes else if a == c2 then cells2 else arrays(a)
  }

  /** `cells` on [0, n), and `pad` shifted by `shift` elsewhere. */
  function PadCells(cells: int -> CodeUnit, n: int, shift: int, pad: int -> CodeUnit): int -> CodeUnit
  {
    j => if 0 <= j < n then cells(j) else pad(j - shift)
  }

  /** `prefix` below `n`, then `tail` read from `start` on. */
  function JoinCells(prefix: int -> CodeUnit, n: int, tail: int -> CodeUnit, start: int): int -> CodeUnit
  {
    i => if i < n then prefix(i) else tail(start + (i - n))
  }

  /** The cells `PaddedArrays` produces: `c1` unchanged on `[0, n1)` (and everywhere when it
      is not `c2`), `c2` unchanged on `[0, n2)`, and `pad` where `r` reads past the prefix
      outside `[0, n2)` of `c2`. */
  lemma PaddedCells(arrays: Name -> (int -> CodeUnit), r: Name, c1: Name, c2: Name,
                    n1: int, n2: int, st: int, pad: int -> CodeUnit)
    requires r != c1 && r != c2 && (c1 == c2 ==> n1 == n2)
    ensures var a := PaddedArrays(arrays, r, c1, c2, n1, n2, st, pad);
            && (c1 != c2 ==> a(c1) == arrays(c1))
            && (forall i :: 0 <= i < n1 ==> a(c1)(i) == arrays(c1)(i))
            && (forall i :: 0 <= i < n2 ==> a(c2)(i) == arrays(c2)(i))
            && (forall i :: 0 <= i && !(0 <= st + i < n2) ==> a(r)(n1 + i) == pad(i))
  {
    var a := PaddedArrays(arrays, r, c1, c2, n1, n2, st, pad);
    var cells2 := PadCells(arrays(c2), n2, st, pad);
    assert a(c2) == cells2;
    forall i | 0 <= i && !(0 <= st + i < n2)
      ensures a(r)(n1 + i) == pad(i)
    {
      assert a(r)(n1 + i) == cells2(st + i);
    }
  }

  /** In `PaddedArrays`, `r` is `c1` followed by `c2` from `st` on. */
  lemma PaddedJoins(arrays: Name -> (int -> CodeUnit), r: Name, c1: Name, c2: Name,
                    n1: int, n2: int, st: int, en: int, pad: int -> CodeUnit)
    requires r != c1 && r != c2 && (c1 == c2 ==> n1 == n2)
    ensures var a := PaddedArrays(arrays, r, c1, c2, n1, n2, st, pad);
            Appended(a(r), a(c1), a(c2), n1 + (if en > st then en - st else 0), n1, st, en)
  {
    var a := PaddedArrays(arrays, r, c1, c2, n1, n2, st, pad);
    var cells2 := PadCells(arrays(c2), n2, st, pad);
    var cellsRes := JoinCells(arrays(c1), n1, cells2, st);
    assert a(r) == cellsRes && a(c2) == cells2;
    forall i | 0 <= i < n1
      ensures cellsRes(i) == a(c1)(i)
    {
    }
    forall j | n1 <= j < n1 + (en - st)
      ensures cellsRes(j) == cells2(st + (j - n1))
    {
    }
  }

  /** The three character axioms hold exactly when `res` is `s1` followed by `c`. */
  lemma ConcatCharSemantics(m: Model, res: SymString, s1: SymString, c: CharTerm, idx: Name)
    requires Eval(m, s1.length) >= 0
    ensures SatisfiesAll(m, ConcatCharAxioms(res, s1, c, idx))
            <==> Eval(m, res.length) >= 0 && Value(m, res) == Value(m, s1) + [EvalChar(m, Unbound, c)]
  {
    var axioms := ConcatCharAxioms(res, s1, c, idx);
    var n1, r := Eval(m, s1.length), m.arrays(res.content);
    assert SatisfiesAll(m, axioms) <==> Satisfies(m, axioms[0]) && Satisfies(m, axioms[1]) && Satisfies(m, axioms[2]);
    assert EvalIn(m, Unbound, Add(s1.length, Lit(1))) == n1 + 1;
    assert Satisfies(m, axioms[0]) <==> Eval(m, res.length) == n1 + 1;
    assert Satisfies(m, axioms[2]) <==> r(n1) == EvalChar(m, Unbound, c);
    PrefixAxiom(m, res, s1, idx);
    if SatisfiesAll(m, axioms) {
      var want := Value(m, s1) + [EvalChar(m, Unbound, c)];
      assert |Value(m, res)| == |want|;
      forall i | 0 <= i < |want|
        ensures Value(m, res)[i] == want[i]
      {
      }
    }
    if Eval(m, res.length) >= 0 && Value(m, res) == Value(m, s1) + [EvalChar(m, Unbound, c)] {
      var got := Value(m, res);
      assert got[n1] == EvalChar(m, Unbound, c);
      forall i | 0 <= i < n1
        ensures r(i) == m.arrays(s1.content)(i)
      {
        assert got[i] == Value(m, s1)[i];
      }
    }
  }

  /** Plain concatenation is the ranged one over all of `s2`: it holds exactly when `res` is
      `s1 ++ s2`. */
  lemma ConcatSemantics(m: Model, res: SymString, s1: SymString, s2: SymString, idx: Name, idx2: Name)
    requires idx2 !in IntNames(s1.length)
    requires Eval(m, s1.length) >= 0 && Eval(m, s2.length) >= 0
    ensures SatisfiesAll(m, ConcatSubstrAxioms(res, s1, s2, Lit(0), s2.length, idx, idx2))
            <==> Eval(m, res.length) >= 0 && Value(m, res) == Value(m, s1) + Value(m, s2)
  {
    ConcatSubstrInRange(m, res, s1, s2, Lit(0), s2.length, idx, idx2);
    assert Value(m, s2)[0..Eval(m, s2.length)] == Value(m, s2);
  }
}
