/** The matcher of regular expressions built from continuation-passing combinators.
    A continuation is kept as data: the matchers still to run. */
module Regex {

  datatype Re =
    | Lit(lit: string)
    | CharP(pred: char -> bool)
    | Any
    | LineStart
    | LineEnd
    | Seq(left: Re, right: Re)
    | Alt(left: Re, right: Re)
    | Star(nested: Re)

  /** Stop: the callback that accepts.  Then: run a matcher, then go on.
      Loop: the recursive callback of a starred matcher. */
  datatype Cont = Stop | Then(re: Re, next: Cont) | Loop(re: Re, next: Cont)

  // ---------------------------------------------------------------- language

  predicate AtLineStart(text: string, i: nat) { i == 0 || (i <= |text| && text[i - 1] == '\n') }

  predicate AtLineEnd(text: string, i: nat) { i == |text| || (i < |text| && text[i] == '\n') }

  /** `r` describes the part of `text` from `i` to `j`, with anchors read in the whole text. */
  ghost predicate Matches(r: Re, text: string, i: nat, j: nat)
    decreases r, 0
  {
    && i <= j <= |text|
    && match r
       case Lit(lit) => text[i..j] == lit
       case CharP(pred) => j == i + 1 && pred(text[i])
       case Any => i == j
       case LineStart => i == j && AtLineStart(text, i)
       case LineEnd => i == j && AtLineEnd(text, i)
       case Seq(a, b) => exists m: nat :: Matches(a, text, i, m) && Matches(b, text, m, j)
       case Alt(a, b) => Matches(a, text, i, j) || Matches(b, text, i, j)
       case Star(a) => exists n: nat :: Power(a, n, text, i, j)
  }

  /** `n` consecutive parts, each described by `r`. */
  ghost predicate Power(r: Re, n: nat, text: string, i: nat, j: nat)
    decreases r, n + 1
  {
    if n == 0 then i == j <= |text|
    else exists m: nat :: Matches(r, text, i, m) && Power(r, n - 1, text, m, j)
  }

  /** What a continuation accepts from position `i` on. */
  ghost predicate Accepts(k: Cont, text: string, i: nat) {
    match k
    case Stop => true
    case Then(r, next) => exists j: nat :: Matches(r, text, i, j) && Accepts(next, text, j)
    case Loop(r, next) => exists j: nat :: Matches(Star(r), text, i, j) && Accepts(next, text, j)
  }

  // ---------------------------------------------------------------- emptiness

  predicate Nullable(r: Re) {
    match r
    case Lit(lit) => lit == ""
    case CharP(_) => false
    case Any => true
    case LineStart => true
    case LineEnd => true
    case Seq(a, b) => Nullable(a) && Nullable(b)
    case Alt(a, b) => Nullable(a) || Nullable(b)
    case Star(_) => true
  }

  /** No starred sub-expression can match the empty string. */
  predicate Proper(r: Re) {
    match r
    case Seq(a, b) => Proper(a) && Proper(b)
    case Alt(a, b) => Proper(a) && Proper(b)
    case Star(a) => Proper(a) && !Nullable(a)
    case _ => true
  }

  predicate ProperCont(k: Cont) {
    match k
    case Stop => true
    case Then(r, next) => Proper(r) && ProperCont(next)
    case Loop(r, next) => Proper(r) && !Nullable(r) && ProperCont(next)
  }

  /** `Nullable` decides whether an expression matches the empty string somewhere. */
  lemma {:induction false} NullableExact(r: Re)
    ensures Nullable(r) <==> exists text, i: nat :: Matches(r, text, i, i)
  {
    if Nullable(r) {
      NullableMatches(r);
      assert Matches(r, "", 0, 0);
    }
    if text, i: nat :| Matches(r, text, i, i) {
      EmptyIsNullable(r, text, i);
    }
  }

  lemma {:induction false} NullableMatches(r: Re)
    requires Nullable(r)
    ensures Matches(r, "", 0, 0)
  {
    match r
    case Seq(a, b) => NullableMatches(a); NullableMatches(b);
    case Alt(a, b) => if Nullable(a) { NullableMatches(a); } else { NullableMatches(b); }
    case Star(a) => assert Power(a, 0, "", 0, 0);
    case _ =>
  }

  lemma {:induction false} EmptyIsNullable(r: Re, text: string, i: nat)
    requires Matches(r, text, i, i)
    ensures Nullable(r)
  {
    match r
    case Seq(a, b) =>
      var m: nat :| Matches(a, text, i, m) && Matches(b, text, m, i);
      assert i <= m <= i by { Ordered(a, text, i, m); Ordered(b, text, m, i); }
      EmptyIsNullable(a, text, i);
      EmptyIsNullable(b, text, i);
    case Alt(a, b) => if Matches(a, text, i, i) { EmptyIsNullable(a, text, i); } else { EmptyIsNullable(b, text, i); }
    case _ =>
  }

  lemma Ordered(r: Re, text: string, i: nat, j: nat)
    requires Matches(r, text, i, j)
    ensures i <= j <= |text|
  {
  }

  // ---------------------------------------------------------------- the matcher

  function Size(r: Re): nat {
    match r
    case Seq(a, b) => Size(a) + Size(b) + 2
    case Alt(a, b) => Size(a) + Size(b) + 1
    case Star(a) => Size(a) + 3
    case _ => 1
  }

  /** Bounds the calls that can follow before some text is consumed. */
  function Reach(r: Re, k: Cont): nat
    decreases k, 1
  {
    if Nullable(r) then Size(r) + ContReach(k) else Size(r)
  }

  function ContReach(k: Cont): nat
    decreases k, 0
  {
    match k
    case Stop => 1
    case Then(r, next) => 1 + Reach(r, next)
    case Loop(r, next) => 2 + ContReach(next) + Size(r)
  }

  lemma SeqReach(a: Re, b: Re, k: Cont)
    ensures Reach(a, Then(b, k)) < Reach(Seq(a, b), k)
  {
    assert ContReach(Then(b, k)) == 1 + Reach(b, k);
  }

  /** Runs the matcher of `r` on `str` with callback `k`. */
  function Match(r: Re, str: string, lineStart: bool, k: Cont): bool
    requires Proper(r) && ProperCont(k)
    decreases |str|, Reach(r, k)
  {
    match r
    case Lit(lit) =>
      var sz := |lit|;
      if |str| < sz || str[..sz] != lit then false
      else Call(k, str[sz..], if sz == 0 then lineStart else str[sz - 1] == '\n')
    case CharP(pred) =>
      |str| > 0 && pred(str[0]) && Call(k, str[1..], str[0] == '\n')
    case Any => Call(k, str, lineStart)
    case LineStart => lineStart && Call(k, str, lineStart)
    case LineEnd => !(|str| > 0 && str[0] != '\n') && Call(k, str, lineStart)
    case Seq(a, b) =>
      SeqReach(a, b, k);
      Match(a, str, lineStart, Then(b, k))
    case Alt(a, b) => Match(a, str, lineStart, k) || Match(b, str, lineStart, k)
    case Star(a) => Call(Loop(a, k), str, lineStart)
  }

  /** Invokes a callback with the remaining text. */
  function Call(k: Cont, str: string, lineStart: bool): bool
    requires ProperCont(k)
    decreases |str|, ContReach(k)
  {
    match k
    case Stop => true
    case Then(r, next) => Match(r, str, lineStart, next)
    case Loop(r, next) => Call(next, str, lineStart) || Match(r, str, lineStart, k)
  }

  // ---------------------------------------------------------------- correctness

  /** Some way for `r` to match from `i` and the continuation to accept the rest. */
  ghost predicate Leads(r: Re, k: Cont, text: string, i: nat) {
    exists j: nat :: Matches(r, text, i, j) && Accepts(k, text, j)
  }

  lemma SeqMiddle(a: Re, b: Re, text: string, i: nat, j: nat) returns (m: nat)
    requires Matches(Seq(a, b), text, i, j)
    ensures Matches(a, text, i, m) && Matches(b, text, m, j)
  {
    m :| Matches(a, text, i, m) && Matches(b, text, m, j);
  }

  lemma StarCount(r: Re, text: string, i: nat, j: nat) returns (n: nat)
    requires Matches(Star(r), text, i, j)
    ensures Power(r, n, text, i, j)
  {
    n :| Power(r, n, text, i, j);
  }

  lemma PowerFirst(r: Re, n: nat, text: string, i: nat, j: nat) returns (m: nat)
    requires n > 0 && Power(r, n, text, i, j)
    ensures Matches(r, text, i, m) && Power(r, n - 1, text, m, j)
  {
    m :| Matches(r, text, i, m) && Power(r, n - 1, text, m, j);
  }

  lemma SeqLeads(a: Re, b: Re, k: Cont, text: string, i: nat)
    ensures Leads(Seq(a, b), k, text, i) <==> Leads(a, Then(b, k), text, i)
  {
    if Leads(Seq(a, b), k, text, i) {
      var j: nat :| Matches(Seq(a, b), text, i, j) && Accepts(k, text, j);
      var m := SeqMiddle(a, b, text, i, j);
      assert Accepts(Then(b, k), text, m);
    }
    if Leads(a, Then(b, k), text, i) {
      var m: nat :| Matches(a, text, i, m) && Accepts(Then(b, k), text, m);
      var j: nat :| Matches(b, text, m, j) && Accepts(k, text, j);
      Ordered(a, text, i, m);
      Ordered(b, text, m, j);
      assert Matches(Seq(a, b), text, i, j);
    }
  }

  lemma AltLeads(a: Re, b: Re, k: Cont, text: string, i: nat)
    ensures Leads(Alt(a, b), k, text, i) <==> Leads(a, k, text, i) || Leads(b, k, text, i)
  {
    if j: nat :| Matches(a, text, i, j) && Accepts(k, text, j) { Ordered(a, text, i, j); assert Matches(Alt(a, b), text, i, j); }
    if j: nat :| Matches(b, text, i, j) && Accepts(k, text, j) { Ordered(b, text, i, j); assert Matches(Alt(a, b), text, i, j); }
    if j: nat :| Matches(Alt(a, b), text, i, j) && Accepts(k, text, j) {
      assert Matches(a, text, i, j) || Matches(b, text, i, j);
    }
  }

  /** One turn of a starred expression. */
  lemma LoopUnfolds(r: Re, next: Cont, text: string, i: nat)
    requires i <= |text|
    ensures Accepts(Loop(r, next), text, i) <==> Accepts(next, text, i) || Leads(r, Loop(r, next), text, i)
  {
    if Accepts(next, text, i) {
      assert Power(r, 0, text, i, i);
      assert Matches(Star(r), text, i, i);
    }
    if Leads(r, Loop(r, next), text, i) {
      var m: nat :| Matches(r, text, i, m) && Accepts(Loop(r, next), text, m);
      var j: nat :| Matches(Star(r), text, m, j) && Accepts(next, text, j);
      var n := StarCount(r, text, m, j);
      Ordered(r, text, i, m);
      assert Power(r, n + 1, text, i, j);
      assert Matches(Star(r), text, i, j);
    }
    if Accepts(Loop(r, next), text, i) {
      var j: nat :| Matches(Star(r), text, i, j) && Accepts(next, text, j);
      var n := StarCount(r, text, i, j);
      if n > 0 {
        var m := PowerFirst(r, n, text, i, j);
        PowerOrdered(r, n - 1, text, m, j);
        assert Matches(Star(r), text, m, j);
        assert Accepts(Loop(r, next), text, m);
      }
    }
  }

  lemma {:induction false} PowerOrdered(r: Re, n: nat, text: string, i: nat, j: nat)
    requires Power(r, n, text, i, j)
    ensures i <= j <= |text|
    decreases n
  {
    if n > 0 {
      var m: nat :| Matches(r, text, i, m) && Power(r, n - 1, text, m, j);
      PowerOrdered(r, n - 1, text, m, j);
      Ordered(r, text, i, m);
    }
  }

  lemma LitLeads(lit: string, k: Cont, text: string, i: nat)
    requires i <= |text|
    ensures Leads(Lit(lit), k, text, i) <==>
      i + |lit| <= |text| && text[i..i + |lit|] == lit && Accepts(k, text, i + |lit|)
  {
    if Leads(Lit(lit), k, text, i) {
      var j: nat :| Matches(Lit(lit), text, i, j) && Accepts(k, text, j);
      assert j == i + |lit|;
    }
    if i + |lit| <= |text| && text[i..i + |lit|] == lit && Accepts(k, text, i + |lit|) {
      assert Matches(Lit(lit), text, i, i + |lit|);
    }
  }

  lemma HereLeads(r: Re, k: Cont, text: string, i: nat)
    requires i <= |text| && (r.Any? || r.LineStart? || r.LineEnd?)
    ensures Leads(r, k, text, i) <==> Matches(r, text, i, i) && Accepts(k, text, i)
  {
  }

  lemma CharLeads(pred: char -> bool, k: Cont, text: string, i: nat)
    requires i <= |text|
    ensures Leads(CharP(pred), k, text, i) <==> i < |text| && pred(text[i]) && Accepts(k, text, i + 1)
  {
    if i < |text| && pred(text[i]) && Accepts(k, text, i + 1) {
      assert Matches(CharP(pred), text, i, i + 1);
    }
  }

  /** The matcher says yes exactly if the expression matches from here and the callback accepts the rest. */
  lemma {:induction false} MatchCorrect(r: Re, k: Cont, text: string, i: nat)
    requires Proper(r) && ProperCont(k) && i <= |text|
    ensures Match(r, text[i..], AtLineStart(text, i), k) <==> Leads(r, k, text, i)
    decreases |text| - i, Reach(r, k)
  {
    hide Leads, Accepts, Matches;
    var str := text[i..];
    match r
    case Lit(lit) =>
      LitLeads(lit, k, text, i);
      var sz := |lit|;
      if sz <= |str| && str[..sz] == lit {
        assert str[sz..] == text[i + sz..] && text[i..i + sz] == lit;
        assert AtLineStart(text, i + sz) == (if sz == 0 then AtLineStart(text, i) else str[sz - 1] == '\n');
        CallCorrect(k, text, i + sz);
      }
    case CharP(pred) =>
      CharLeads(pred, k, text, i);
      if |str| > 0 {
        assert str[1..] == text[i + 1..];
        CallCorrect(k, text, i + 1);
      }
    case Any => HereLeads(r, k, text, i); HereMatches(r, text, i); CallCorrect(k, text, i);
    case LineStart => HereLeads(r, k, text, i); HereMatches(r, text, i); CallCorrect(k, text, i);
    case LineEnd => HereLeads(r, k, text, i); HereMatches(r, text, i); CallCorrect(k, text, i);
    case Seq(a, b) =>
      SeqReach(a, b, k);
      SeqLeads(a, b, k, text, i);
      MatchCorrect(a, Then(b, k), text, i);
    case Alt(a, b) =>
      AltLeads(a, b, k, text, i);
      MatchCorrect(a, k, text, i);
      MatchCorrect(b, k, text, i);
    case Star(a) =>
      CallCorrect(Loop(a, k), text, i);
      StarLeads(a, k, text, i);
  }

  lemma HereMatches(r: Re, text: string, i: nat)
    requires i <= |text| && (r.Any? || r.LineStart? || r.LineEnd?)
    ensures Matches(r, text, i, i) <==>
      (r.LineStart? ==> AtLineStart(text, i)) && (r.LineEnd? ==> i == |text| || text[i] == '\n')
  {
  }

  lemma StarLeads(a: Re, k: Cont, text: string, i: nat)
    ensures Leads(Star(a), k, text, i) <==> Accepts(Loop(a, k), text, i)
  {
  }

  lemma {:induction false} CallCorrect(k: Cont, text: string, i: nat)
    requires ProperCont(k) && i <= |text|
    ensures Call(k, text[i..], AtLineStart(text, i)) <==> Accepts(k, text, i)
    decreases |text| - i, ContReach(k)
  {
    match k
    case Stop =>
    case Then(r, next) =>
      MatchCorrect(r, next, text, i);
    case Loop(r, next) =>
      hide Leads, Accepts, Matches;
      LoopUnfolds(r, next, text, i);
      CallCorrect(next, text, i);
      MatchCorrect(r, k, text, i);
  }

  /** True iff some substring is in the language, with ^ and $ read in the whole text. */
  method MatchSubstring(r: Re, text: string) returns (found: bool)
    requires Proper(r)
    ensures found <==> exists i: nat, j: nat :: Matches(r, text, i, j)
  {
    var str, lineStart := text, true;
    var i := 0;
    while i < |text|
      invariant 0 <= i <= |text| && str == text[i..] && lineStart == AtLineStart(text, i)
      invariant forall a: nat, b: nat :: a < i ==> !Matches(r, text, a, b)
    {
      MatchCorrect(r, Stop, text, i);
      LeadsStop(r, text, i);
      if Match(r, str, lineStart, Stop) {
        return true;
      }
      lineStart := str[0] == '\n';
      str := str[1..];
      i := i + 1;
    }
    assert str == "";
    MatchCorrect(r, Stop, text, i);
    LeadsStop(r, text, i);
    found := Match(r, "", lineStart, Stop);
  }

  lemma LeadsStop(r: Re, text: string, i: nat)
    ensures Leads(r, Stop, text, i) <==> exists j: nat :: Matches(r, text, i, j)
  {
    if Leads(r, Stop, text, i) {
      var j: nat :| Matches(r, text, i, j) && Accepts(Stop, text, j);
    }
    if exists j: nat :: Matches(r, text, i, j) {
      var j: nat :| Matches(r, text, i, j);
      assert Matches(r, text, i, j) && Accepts(Stop, text, j);
    }
  }
}
