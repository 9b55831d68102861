/** The concatenation part of the string constraint generator: a generator object owns the
    list of axioms produced so far and a counter for fresh symbols, and each `add_axioms_for_*`
    operation appends the axioms of one string-library call and returns the result code 0. */
module ConcatGenerator {
  import opened StringTerms
  import opened ConcatAxioms

  const ConcatIndexHint := "QA_index_concat"
  const ConcatIndex2Hint := "QA_index_concat2"
  const ConcatCharIndexHint := "QA_index_concat_char"
  const LengthHint := "string_length"
  const ContentHint := "string_content"

  /** The string a string-typed argument denotes. */
  function StringOf(a: Arg): SymString
    requires a.StrArg?
  {
    a.str
  }

  /** An argument used as an integer: its term when it is one, otherwise a mistyped term. */
  function IndexOf(a: Arg): IntTerm
  {
    if a.IntArg? then a.term else Mistyped(a)
  }

  /** The result string of a call: the array behind `pointer`, of length `length`. */
  function CharArrayOf(pointer: Arg, length: Arg): SymString
    requires pointer.PtrArg?
  {
    SymString(IndexOf(length), pointer.target)
  }

  /** The string `fresh_string` returns when the counter stands at `n`. */
  function FreshStringAt(n: nat): SymString
  {
    SymString(IntVar(Fresh(LengthHint, n)), Fresh(ContentHint, n + 1))
  }

  /** Every generated symbol `t` reads was drawn before the counter reached `n`. */
  predicate Predates(t: IntTerm, n: nat)
  {
    forall v :: v in IntNames(t) && v.Fresh? ==> v.n < n
  }

  /** The argument kinds the concatenation call node carries: length, result pointer, and
      two strings (then, with six arguments, two more). */
  predicate ConcatArgs(args: seq<Arg>)
  {
    && (|args| == 4 || |args| == 6)
    && args[1].PtrArg? && args[2].StrArg? && args[3].StrArg?
  }

  /** What the concatenation call appends, as written: with six arguments the range is taken
      from the third and fourth arguments, the two strings themselves. */
  function ConcatCallAxioms(args: seq<Arg>, n: nat): seq<Axiom>
    requires ConcatArgs(args)
  {
    var s1, s2, res := StringOf(args[2]), StringOf(args[3]), CharArrayOf(args[1], args[0]);
    var idx, idx2 := Fresh(ConcatIndexHint, n), Fresh(ConcatIndex2Hint, n + 1);
    if |args| == 6 then ConcatSubstrAxioms(res, s1, s2, IndexOf(args[2]), IndexOf(args[3]), idx, idx2)
    else ConcatSubstrAxioms(res, s1, s2, Lit(0), s2.length, idx, idx2)
  }

  /** What the concatenation call appends when, as its documentation says, a six-argument call
      takes its range from the last two arguments. */
  function RangeConcatCallAxioms(args: seq<Arg>, n: nat): seq<Axiom>
    requires ConcatArgs(args)
  {
    var s1, s2, res := StringOf(args[2]), StringOf(args[3]), CharArrayOf(args[1], args[0]);
    var idx, idx2 := Fresh(ConcatIndexHint, n), Fresh(ConcatIndex2Hint, n + 1);
    if |args| == 6 then ConcatSubstrAxioms(res, s1, s2, IndexOf(args[4]), IndexOf(args[5]), idx, idx2)
    else ConcatSubstrAxioms(res, s1, s2, Lit(0), s2.length, idx, idx2)
  }

  /** A four-argument call appends `s2` to `s1` whole, in either reading. */
  lemma ConcatCallMeaning(args: seq<Arg>, n: nat, m: Model)
    requires ConcatArgs(args) && |args| == 4
    requires Predates(StringOf(args[2]).length, n)
    requires Eval(m, StringOf(args[2]).length) >= 0 && Eval(m, StringOf(args[3]).length) >= 0
    ensures var res := CharArrayOf(args[1], args[0]);
            SatisfiesAll(m, ConcatCallAxioms(args, n))
            <==> Eval(m, res.length) >= 0 && Value(m, res) == Value(m, StringOf(args[2])) + Value(m, StringOf(args[3]))
    ensures ConcatCallAxioms(args, n) == RangeConcatCallAxioms(args, n)
  {
    var s1, s2, res := StringOf(args[2]), StringOf(args[3]), CharArrayOf(args[1], args[0]);
    ConcatSemantics(m, res, s1, s2, Fresh(ConcatIndexHint, n), Fresh(ConcatIndex2Hint, n + 1));
  }

  /** With the range read from the last two arguments, a six-argument call makes the result
      `s1 ++ s2[start..end)` whenever the range lies within `s2`. */
  lemma RangeConcatCallMeaning(args: seq<Arg>, n: nat, m: Model)
    requires ConcatArgs(args) && |args| == 6
    requires Predates(StringOf(args[2]).length, n) && Predates(IndexOf(args[4]), n)
    requires Eval(m, StringOf(args[2]).length) >= 0
    requires 0 <= Eval(m, IndexOf(args[4])) <= Eval(m, IndexOf(args[5])) <= Eval(m, StringOf(args[3]).length)
    ensures var res := CharArrayOf(args[1], args[0]);
            SatisfiesAll(m, RangeConcatCallAxioms(args, n))
            <==> Eval(m, res.length) >= 0
                 && Value(m, res) == Value(m, StringOf(args[2]))
                      + Value(m, StringOf(args[3]))[Eval(m, IndexOf(args[4]))..Eval(m, IndexOf(args[5]))]
  {
    var s1, s2, res := StringOf(args[2]), StringOf(args[3]), CharArrayOf(args[1], args[0]);
    ConcatSubstrInRange(m, res, s1, s2, IndexOf(args[4]), IndexOf(args[5]),
                        Fresh(ConcatIndexHint, n), Fresh(ConcatIndex2Hint, n + 1));
  }

  /** Six-argument calls as written: two calls that differ only in their range, (0, 0) and
      (0, 1), append the very same axioms, although the intended results differ in length,
      so no model meets what both calls ask for. */
  lemma ConcatCallIgnoresRange(m: Model)
    ensures var s1, s2 := SymString(IntVar(User("n1")), User("s1")), SymString(IntVar(User("n2")), User("s2"));
            var empty := [IntArg(IntVar(User("len"))), PtrArg(User("res")), StrArg(s1), StrArg(s2), IntArg(Lit(0)), IntArg(Lit(0))];
            var single := empty[5 := IntArg(Lit(1))];
            && ConcatCallAxioms(empty, 0) == ConcatCallAxioms(single, 0)
            && !(SatisfiesAll(m, RangeConcatCallAxioms(empty, 0)) && SatisfiesAll(m, RangeConcatCallAxioms(single, 0)))
  {
    var s1, s2 := SymString(IntVar(User("n1")), User("s1")), SymString(IntVar(User("n2")), User("s2"));
    var empty := [IntArg(IntVar(User("len"))), PtrArg(User("res")), StrArg(s1), StrArg(s2), IntArg(Lit(0)), IntArg(Lit(0))];
    var single := empty[5 := IntArg(Lit(1))];
    var res := CharArrayOf(empty[1], empty[0]);
    var idx, idx2 := Fresh(ConcatIndexHint, 0), Fresh(ConcatIndex2Hint, 1);
    if SatisfiesAll(m, RangeConcatCallAxioms(empty, 0)) && SatisfiesAll(m, RangeConcatCallAxioms(single, 0)) {
      ConcatSubstrLength(m, res, s1, s2, Lit(0), Lit(0), idx, idx2);
      ConcatSubstrLength(m, res, s1, s2, Lit(0), Lit(1), idx, idx2);
      assert false;
    }
  }

  /** The argument kinds of the character-append call node: length, result pointer, string
      and character. */
  predicate ConcatCharArgs(args: seq<Arg>)
  {
    |args| == 4 && args[1].PtrArg? && args[2].StrArg? && args[3].CharArg?
  }

  class Generator {
    /** The axioms produced so far, in order. */
    var axioms: seq<Axiom>
    /** The source of fresh symbol names. */
    var counter: nat
    /** The axioms the code-point generator emits for a string and a code point. */
    const codePointAxioms: (SymString, Arg) -> seq<Axiom>

    constructor (codePointAxioms: (SymString, Arg) -> seq<Axiom>)
      ensures axioms == [] && counter == 0 && this.codePointAxioms == codePointAxioms
    {
      axioms := [];
      counter := 0;
      this.codePointAxioms := codePointAxioms;
    }

    /** A universally quantified index symbol built from the current counter value, which
        then grows, so no later call of this generator builds a name from the same value. */
    method FreshIndex(hint: string) returns (v: Name)
      modifies this`counter
      ensures v == Fresh(hint, old(counter)) && counter == old(counter) + 1
    {
      v := Fresh(hint, counter);
      counter := counter + 1;
    }

    /** A string whose length symbol and array are built from the counter values n and n + 1,
        after which the counter grows by two. */
    method FreshString() returns (s: SymString)
      modifies this`counter
      ensures s == FreshStringAt(old(counter)) && counter == old(counter) + 2
    {
      var length := Fresh(LengthHint, counter);
      var content := Fresh(ContentHint, counter + 1);
      counter := counter + 2;
      s := SymString(IntVar(length), content);
    }

    /** The code-point generator: appends what it emits for `res` and `codePoint`. */
    method CodePoint(res: SymString, codePoint: Arg)
      modifies this`axioms
      ensures axioms == old(axioms) + codePointAxioms(res, codePoint)
    {
      axioms := axioms + codePointAxioms(res, codePoint);
    }

    /** Appends the four axioms for `res = s1 ++ s2[start, end)`, leaving earlier axioms as
        they were, and returns 0. */
    method ConcatSubstr(res: SymString, s1: SymString, s2: SymString, start: IntTerm, end: IntTerm)
      returns (code: IntTerm)
      modifies this
      ensures code == Lit(0)
      ensures counter == old(counter) + 2
      ensures axioms == old(axioms) + ConcatSubstrAxioms(res, s1, s2, start, end,
                                        Fresh(ConcatIndexHint, old(counter)), Fresh(ConcatIndex2Hint, old(counter) + 1))
    {
      var prem := Gt(end, start);
      axioms := axioms + [Implies(prem, IntEq(res.length, Add(s1.length, Sub(end, start))))];
      axioms := axioms + [Implies(Not(prem), IntEq(res.length, s1.length))];
      var idx := FreshIndex(ConcatIndexHint);
      axioms := axioms + [Forall(idx, s1.length, CharEq(At(s1.content, IntVar(idx)), At(res.content, IntVar(idx))))];
      var idx2 := FreshIndex(ConcatIndex2Hint);
      var resEq := CharEq(At(res.content, Add(IntVar(idx2), s1.length)), At(s2.content, Add(start, IntVar(idx2))));
      axioms := axioms + [Forall(idx2, Sub(end, start), resEq)];
      code := Lit(0);
    }

    /** Appends the three axioms for `res = s1 ++ [c]` and returns 0. */
    method ConcatChar(res: SymString, s1: SymString, c: CharTerm) returns (code: IntTerm)
      modifies this
      ensures code == Lit(0)
      ensures counter == old(counter) + 1
      ensures axioms == old(axioms) + ConcatCharAxioms(res, s1, c, Fresh(ConcatCharIndexHint, old(counter)))
    {
      axioms := axioms + [Plain(IntEq(res.length, Add(s1.length, Lit(1))))];
      var idx := FreshIndex(ConcatCharIndexHint);
      axioms := axioms + [Forall(idx, s1.length, CharEq(At(s1.content, IntVar(idx)), At(res.content, IntVar(idx))))];
      axioms := axioms + [Plain(CharEq(At(res.content, s1.length), c))];
      code := Lit(0);
    }

    /** Appends exactly what the ranged concatenation appends for the range [0, |s2|). */
    method Concat(res: SymString, s1: SymString, s2: SymString) returns (code: IntTerm)
      modifies this
      ensures code == Lit(0)
      ensures counter == old(counter) + 2
      ensures axioms == old(axioms) + ConcatSubstrAxioms(res, s1, s2, Lit(0), s2.length,
                                        Fresh(ConcatIndexHint, old(counter)), Fresh(ConcatIndex2Hint, old(counter) + 1))
    {
      code := ConcatSubstr(res, s1, s2, Lit(0), s2.length);
    }

    /** The concatenation call node as written: four arguments append the second string whole,
        six go through the ranged concatenation with the third and fourth arguments as range. */
    method ConcatCall(args: seq<Arg>) returns (code: IntTerm)
      requires ConcatArgs(args)
      modifies this
      ensures code == Lit(0)
      ensures counter == old(counter) + 2
      ensures axioms == old(axioms) + ConcatCallAxioms(args, old(counter))
    {
      var s1 := StringOf(args[2]);
      var s2 := StringOf(args[3]);
      var res := CharArrayOf(args[1], args[0]);
      if |args| == 6 {
        code := ConcatSubstr(res, s1, s2, IndexOf(args[2]), IndexOf(args[3]));
      } else {
        code := Concat(res, s1, s2);
      }
    }

    /** The concatenation call node with a six-argument call's range read from its last two
        arguments. */
    method RangeConcatCall(args: seq<Arg>) returns (code: IntTerm)
      requires ConcatArgs(args)
      modifies this
      ensures code == Lit(0)
      ensures counter == old(counter) + 2
      ensures axioms == old(axioms) + RangeConcatCallAxioms(args, old(counter))
    {
      var s1 := StringOf(args[2]);
      var s2 := StringOf(args[3]);
      var res := CharArrayOf(args[1], args[0]);
      if |args| == 6 {
        code := ConcatSubstr(res, s1, s2, IndexOf(args[4]), IndexOf(args[5]));
      } else {
        code := Concat(res, s1, s2);
      }
    }

    /** The character-append call node: appends the fourth argument to the string argument. */
    method ConcatCharCall(args: seq<Arg>) returns (code: IntTerm)
      requires ConcatCharArgs(args)
      modifies this
      ensures code == Lit(0)
      ensures counter == old(counter) + 1
      ensures axioms == old(axioms) + ConcatCharAxioms(CharArrayOf(args[1], args[0]), StringOf(args[2]),
                                        args[3].character, Fresh(ConcatCharIndexHint, old(counter)))
    {
      var s1 := StringOf(args[2]);
      var c := args[3].character;
      var res := CharArrayOf(args[1], args[0]);
      code := ConcatChar(res, s1, c);
    }

    /** What the code-point append call appends when the counter stands at `n`: the code-point
        axioms for a fresh string, then the concatenation of the string argument with it. */
    function CodePointCallAxioms(args: seq<Arg>, n: nat): seq<Axiom>
      requires |args| == 4 && args[1].PtrArg? && args[2].StrArg?
    {
      var res, s1, codePoint := CharArrayOf(args[1], args[0]), StringOf(args[2]), FreshStringAt(n);
      codePointAxioms(codePoint, args[3])
        + ConcatSubstrAxioms(res, s1, codePoint, Lit(0), codePoint.length,
                             Fresh(ConcatIndexHint, n + 2), Fresh(ConcatIndex2Hint, n + 3))
    }

    /** The code-point append call node: the result is the string argument followed by a fresh
        string that the code-point generator constrains; the code-point generator's own result
        code is dropped and the concatenation's, 0, returned. */
    method ConcatCodePointCall(args: seq<Arg>) returns (code: IntTerm)
      requires |args| == 4 && args[1].PtrArg? && args[2].StrArg?
      modifies this
      ensures code == Lit(0)
      ensures counter == old(counter) + 4
      ensures axioms == old(axioms) + CodePointCallAxioms(args, old(counter))
    {
      var res := CharArrayOf(args[1], args[0]);
      var s1 := StringOf(args[2]);
      var codePoint := FreshString();
      CodePoint(codePoint, args[3]);
      code := Concat(res, s1, codePoint);
    }
  }

  /** A model meets the code-point append call's axioms exactly when it meets the code-point
      generator's axioms for the fresh string and the result is the string argument followed
      by that fresh string. */
  lemma CodePointCallMeaning(g: Generator, args: seq<Arg>, n: nat, m: Model)
    requires |args| == 4 && args[1].PtrArg? && args[2].StrArg?
    requires Predates(StringOf(args[2]).length, n)
    requires Eval(m, StringOf(args[2]).length) >= 0 && Eval(m, FreshStringAt(n).length) >= 0
    ensures var res := CharArrayOf(args[1], args[0]);
            SatisfiesAll(m, g.CodePointCallAxioms(args, n))
            <==> && SatisfiesAll(m, g.codePointAxioms(FreshStringAt(n), args[3]))
                 && Eval(m, res.length) >= 0
                 && Value(m, res) == Value(m, StringOf(args[2])) + Value(m, FreshStringAt(n))
  {
    var res, s1, codePoint := CharArrayOf(args[1], args[0]), StringOf(args[2]), FreshStringAt(n);
    SatisfiesAllAppend(m, g.codePointAxioms(codePoint, args[3]),
      ConcatSubstrAxioms(res, s1, codePoint, Lit(0), codePoint.length, Fresh(ConcatIndexHint, n + 2), Fresh(ConcatIndex2Hint, n + 3)));
    ConcatSemantics(m, res, s1, codePoint, Fresh(ConcatIndexHint, n + 2), Fresh(ConcatIndex2Hint, n + 3));
  }
}
