/** Specification of `update_symbol_table_types` (Compiler_Project_phase1.py):
    a left-to-right pass over the token list that refines symbol-table
    entries after `let`, `func` and `call`.  Python's IndexError and
    KeyError become a `Crashed` outcome carrying the table as it was when
    the exception was raised. */
module Annotation {
  import opened Options
  import opened Scanning

  datatype Crash = IndexError(index: nat) | KeyError(key: string)

  datatype Annotated = Done(table: Table) | Crashed(crash: Crash, table: Table)

  /** Index of the first 'right_paren' at or after `j`, or `|ts|` if none. */
  function NextCloseParen(ts: seq<Token>, j: nat): (k: nat)
    requires j <= |ts|
    ensures j <= k <= |ts|
    ensures k < |ts| ==> ts[k].kind == RightParen
    ensures forall m | j <= m < k :: ts[m].kind != RightParen
    decreases |ts| - j
  {
    if j == |ts| || ts[j].kind == RightParen then j else NextCloseParen(ts, j + 1)
  }

  /** The lexemes of the identifier tokens of `ts`, in order. */
  function IdentLexemes(ts: seq<Token>): (r: seq<string>)
    ensures |r| <= |ts|
    ensures forall x :: x in r <==> exists k | 0 <= k < |ts| :: ts[k].kind == Identifier && ts[k].lexeme == x
    ensures |r| == |ts| <==> forall k | 0 <= k < |ts| :: ts[k].kind == Identifier
    decreases |ts|
  {
    if ts == [] then []
    else
      var last := ts[|ts| - 1];
      IdentLexemes(ts[..|ts| - 1]) + (if last.kind == Identifier then [last.lexeme] else [])
  }

  /** The names of a concatenation are the names of its first part
      followed by those of its second: the order of the tokens is kept. */
  lemma {:induction false} IdentLexemesAppend(a: seq<Token>, b: seq<Token>)
    ensures IdentLexemes(a + b) == IdentLexemes(a) + IdentLexemes(b)
    decreases |b|
  {
    if b == [] {
      assert a + b == a;
    } else {
      var c, b' := a + b, b[..|b| - 1];
      var last := b[|b| - 1];
      var tail := if last.kind == Identifier then [last.lexeme] else [];
      assert c[..|c| - 1] == a + b' && c[|c| - 1] == last;
      assert IdentLexemes(c) == IdentLexemes(a + b') + tail;
      IdentLexemesAppend(a, b');
      assert IdentLexemes(b) == IdentLexemes(b') + tail;
    }
  }

  /** The kinds after which the pass looks at the next token. */
  predicate Annotates(k: Kind) {
    k == Kw(Let) || k == Kw(Func) || k == Kw(Call)
  }

  /** The name the pass may touch at index `i`: the identifier right after
      a `let`, `func` or `call` token. */
  function TargetAt(ts: seq<Token>, i: nat): set<string> {
    if TargetsNext(ts, i) then {ts[i + 1].lexeme} else {}
  }

  /** One iteration of the pass at index `i`. */
  function AnnotateAt(ts: seq<Token>, i: nat, t: Table): Annotated
    requires i < |ts|
  {
    match ts[i].kind
    case Kw(Let) => AnnotateLet(ts, i, t)
    case Kw(Func) => AnnotateFunc(ts, i, t)
    case Kw(Call) => AnnotateCall(ts, i, t)
    case _ => Done(t)
  }

  /** One iteration keeps every entry, adds an entry only for a `call`,
      changes only the entry named right after the keyword, and raises
      KeyError only for that name when it has no entry. */
  lemma AnnotateAtEffect(ts: seq<Token>, i: nat, t: Table)
    requires i < |ts|
    ensures var r := AnnotateAt(ts, i, t);
            && t.Keys <= r.table.Keys
            && r.table.Keys <= t.Keys + TargetAt(ts, i)
            && (r.table.Keys - t.Keys != {} ==> ts[i].kind == Kw(Call))
            && (forall n | n !in TargetAt(ts, i) && n in t :: r.table[n] == t[n])
            && (r.Crashed? && r.crash.KeyError? ==> r.crash.key !in t && r.crash.key in TargetAt(ts, i))
  {
  }

  /** `let` followed by an identifier makes its entry an integer. */
  function AnnotateLet(ts: seq<Token>, i: nat, t: Table): Annotated
    requires i < |ts|
  {
    if i + 1 >= |ts| then Crashed(IndexError(i + 1), t)
    else if ts[i + 1].kind != Identifier then Done(t)
    else
      var n := ts[i + 1].lexeme;
      if n !in t then Crashed(KeyError(n), t)
      else Done(t[n := t[n].(typ := Integer)])
  }

  /** `func` followed by an identifier makes its entry a function and, when
      `(` follows, records the identifiers up to the next `)` as its
      parameters; with no `)` the scan runs off the end. */
  function AnnotateFunc(ts: seq<Token>, i: nat, t: Table): Annotated
    requires i < |ts|
  {
    if i + 1 >= |ts| then Crashed(IndexError(i + 1), t)
    else if ts[i + 1].kind != Identifier then Done(t)
    else
      var n := ts[i + 1].lexeme;
      if n !in t then Crashed(KeyError(n), t)
      else
        var t1 := t[n := t[n].(typ := Function)];
        if i + 2 >= |ts| then Crashed(IndexError(i + 2), t1)
        else if ts[i + 2].kind != LeftParen then Done(t1)
        else
          var k := NextCloseParen(ts, i + 3);
          if k == |ts| then Crashed(IndexError(k), t1)
          else Done(t1[n := t1[n].(parameters := Some(IdentLexemes(ts[i + 3..k])))])
  }

  /** `call` followed by an identifier creates its entry if absent, makes it
      a function and, when `(` follows, records the identifiers up to the
      next `)` (or the end) as its parameters. */
  function AnnotateCall(ts: seq<Token>, i: nat, t: Table): Annotated
    requires i < |ts|
  {
    if i + 1 >= |ts| then Crashed(IndexError(i + 1), t)
    else if ts[i + 1].kind != Identifier then Done(t)
    else
      var n := ts[i + 1].lexeme;
      var e := if n in t then t[n] else Entry(n, Unknown, None);
      var t1 := t[n := e.(typ := Function)];
      if i + 2 < |ts| && ts[i + 2].kind == LeftParen then
        var k := NextCloseParen(ts, i + 3);
        Done(t1[n := t1[n].(parameters := Some(IdentLexemes(ts[i + 3..k])))])
      else Done(t1)
  }

  /** The pass from index `i` on. */
  function AnnotateFrom(ts: seq<Token>, i: nat, t: Table): Annotated
    requires i <= |ts|
    decreases |ts| - i
  {
    if i == |ts| then Done(t)
    else
      match AnnotateAt(ts, i, t)
      case Done(t1) => AnnotateFrom(ts, i + 1, t1)
      case Crashed(c, t1) => Crashed(c, t1)
  }

  /** Index `m` holds a `let`, `func` or `call` token followed by an identifier. */
  predicate TargetsNext(ts: seq<Token>, m: nat) {
    m + 1 < |ts| && Annotates(ts[m].kind) && ts[m + 1].kind == Identifier
  }

  /** Every name the pass may touch from index `i` on. */
  function TargetsFrom(ts: seq<Token>, i: nat): set<string> {
    set m: nat | i <= m < |ts| && TargetsNext(ts, m) :: ts[m + 1].lexeme
  }

  /** The names that follow a `call` from index `i` on. */
  function CallTargetsFrom(ts: seq<Token>, i: nat): set<string> {
    set m: nat | i <= m < |ts| && TargetsNext(ts, m) && ts[m].kind == Kw(Call) :: ts[m + 1].lexeme
  }

  lemma TargetsUnfold(ts: seq<Token>, i: nat)
    requires i < |ts|
    ensures TargetsFrom(ts, i) == TargetAt(ts, i) + TargetsFrom(ts, i + 1)
    ensures CallTargetsFrom(ts, i) == (if ts[i].kind == Kw(Call) then TargetAt(ts, i) else {}) + CallTargetsFrom(ts, i + 1)
  {
  }

  // ------------------------------------------------------------------
  // Properties of the pass
  // ------------------------------------------------------------------

  /** The pass never removes an entry and adds only names called with
      `call`. */
  lemma {:induction false} AnnotateKeys(ts: seq<Token>, i: nat, t: Table)
    requires i <= |ts|
    ensures t.Keys <= AnnotateFrom(ts, i, t).table.Keys
    ensures AnnotateFrom(ts, i, t).table.Keys <= t.Keys + CallTargetsFrom(ts, i)
    decreases |ts| - i
  {
    if i < |ts| {
      TargetsUnfold(ts, i);
      AnnotateAtEffect(ts, i, t);
      var r := AnnotateAt(ts, i, t);
      var added := if ts[i].kind == Kw(Call) then TargetAt(ts, i) else {};
      assert r.table.Keys <= t.Keys + added;
      if r.Done? {
        AnnotateKeys(ts, i + 1, r.table);
        assert CallTargetsFrom(ts, i) == added + CallTargetsFrom(ts, i + 1);
      }
    }
  }

  /** Every entry whose name does not follow a `let`, `func` or `call`
      token comes out of the pass exactly as it went in. */
  lemma {:induction false} AnnotateTouchesOnlyTargets(ts: seq<Token>, i: nat, t: Table)
    requires i <= |ts|
    ensures forall n | n !in TargetsFrom(ts, i) && n in t ::
              n in AnnotateFrom(ts, i, t).table && AnnotateFrom(ts, i, t).table[n] == t[n]
    decreases |ts| - i
  {
    if i < |ts| {
      TargetsUnfold(ts, i);
      AnnotateAtEffect(ts, i, t);
      var r := AnnotateAt(ts, i, t);
      if r.Done? {
        AnnotateTouchesOnlyTargets(ts, i + 1, r.table);
        forall n | n !in TargetsFrom(ts, i) && n in t
          ensures n in AnnotateFrom(ts, i, t).table && AnnotateFrom(ts, i, t).table[n] == t[n]
        {
          assert n !in TargetAt(ts, i) && n !in TargetsFrom(ts, i + 1);
          assert n in r.table && r.table[n] == t[n];
        }
      }
    }
  }

  /** If every identifier of the token list already has an entry (as after
      `tokenize`), the pass cannot raise KeyError. */
  lemma {:induction false} AnnotateNoKeyError(ts: seq<Token>, i: nat, t: Table)
    requires i <= |ts|
    requires IdentifierNames(ts) <= t.Keys
    ensures !(AnnotateFrom(ts, i, t).Crashed? && AnnotateFrom(ts, i, t).crash.KeyError?)
    decreases |ts| - i
  {
    if i < |ts| {
      AnnotateAtEffect(ts, i, t);
      var r := AnnotateAt(ts, i, t);
      if r.Done? {
        AnnotateNoKeyError(ts, i + 1, r.table);
      }
    }
  }

  /** Scanning a source and then running the pass on what was scanned never
      raises KeyError: the scanner recorded every identifier it emitted. */
  lemma LexedTokensAnnotateWithoutKeyError(s: string)
    ensures var ts := LexFrom(s, 0).tokens;
            var r := AnnotateFrom(ts, 0, Recorded(map[], ts));
            !(r.Crashed? && r.crash.KeyError?)
  {
    var ts := LexFrom(s, 0).tokens;
    RecordedEntries(map[], ts);
    AnnotateNoKeyError(ts, 0, Recorded(map[], ts));
  }

  /** Whatever comes before it, a `let` as the last token makes the pass
      stop with an exception: the IndexError one past the end unless an
      earlier token already raised. */
  lemma {:induction false} LetAtEndCrashes(ts: seq<Token>, i: nat, t: Table)
    requires i < |ts| && ts[|ts| - 1].kind == Kw(Let)
    ensures AnnotateFrom(ts, i, t).Crashed?
    ensures AnnotateFrom(ts, i, t).crash.IndexError? ==> AnnotateFrom(ts, i, t).crash.index == |ts|
    decreases |ts| - i
  {
    var r := AnnotateAt(ts, i, t);
    if i < |ts| - 1 && r.Done? {
      LetAtEndCrashes(ts, i + 1, r.table);
    }
  }

  /** A `let` at the end after tokens none of which is `let`, `func` or
      `call`: the pass reads one past the end with the table unchanged. */
  lemma LoneLetAtEndCrashes(ts: seq<Token>, t: Table)
    requires |ts| > 0 && ts[|ts| - 1].kind == Kw(Let)
    requires forall m | 0 <= m < |ts| - 1 :: !Annotates(ts[m].kind)
    ensures AnnotateFrom(ts, 0, t) == Crashed(IndexError(|ts|), t)
  {
    var i := 0;
    while i < |ts| - 1
      invariant 0 <= i <= |ts| - 1
      invariant AnnotateFrom(ts, 0, t) == AnnotateFrom(ts, i, t)
    {
      i := i + 1;
    }
  }
}
