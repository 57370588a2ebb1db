/** The command language of sh.c: words, redirections and the grammar of command lines, as a relation between
    a stretch of the line and the command it reads as. A string in the line is a pair of positions, first
    and past the last character. */
module Grammar {

  const MAXARGS := 10

  datatype Span = Span(q: nat, eq: nat)

  datatype Mode = Read | Write

  /** Redirections keep their file's span; open modes of > and >> are the same. */
  datatype Cmd =
    | Exec(argv: seq<Span>)
    | Redir(cmd: Cmd, file: Span, mode: Mode, fd: nat)
    | Pipe(left: Cmd, right: Cmd)
    | List(left: Cmd, right: Cmd)
    | Back(cmd: Cmd)

  predicate Blank(c: char) { c in {' ', '\t', '\r', '\n', '\U{000B}'} }

  predicate Symbol(c: char) { c in {'<', '|', '>', '&', ';', '(', ')'} }

  predicate WordChar(c: char) { !Blank(c) && !Symbol(c) && c != '\0' }

  /** A command line: the characters before the terminating NUL. */
  type Line = s: string | '\0' !in s

  function At(s: Line, i: nat): char { if i < |s| then s[i] else '\0' }

  /** Position i is not inside a word. */
  predicate Boundary(s: Line, i: nat) { i <= |s| && (i == 0 || i == |s| || !WordChar(s[i - 1]) || !WordChar(s[i])) }

  /** A longest stretch of word characters. */
  predicate Word(s: Line, w: Span) {
    && w.q < w.eq <= |s| && (forall i :: w.q <= i < w.eq ==> WordChar(s[i]))
    && (w.q == 0 || !WordChar(s[w.q - 1])) && (w.eq == |s| || !WordChar(s[w.eq]))
  }

  /** Every string that the command refers to. */
  function Spans(cmd: Cmd): set<Span> {
    match cmd
    case Exec(argv) => set w | w in argv
    case Redir(c, file, _, _) => Spans(c) + {file}
    case Pipe(l, r) => Spans(l) + Spans(r)
    case List(l, r) => Spans(l) + Spans(r)
    case Back(c) => Spans(c)
  }

  /** The spans ws are exactly the words that start between a and b. */
  ghost predicate Covers(s: Line, ws: set<Span>, a: nat, b: nat) {
    && a <= b && Boundary(s, a) && Boundary(s, b)
    && forall w :: w in ws <==> Word(s, w) && a <= w.q < b
  }

  lemma CoversJoin(s: Line, ws: set<Span>, vs: set<Span>, a: nat, b: nat, c: nat)
    requires Covers(s, ws, a, b) && Covers(s, vs, b, c)
    ensures Covers(s, ws + vs, a, c)
  {
  }

  /** A stretch without word characters. */
  lemma CoversNone(s: Line, a: nat, b: nat)
    requires a <= b <= |s| && Boundary(s, a) && forall i :: a <= i < b ==> !WordChar(s[i])
    ensures Covers(s, {}, a, b)
  {
    forall w | Word(s, w) ensures !(a <= w.q < b) { assert WordChar(s[w.q]); }
  }

  lemma CoversWord(s: Line, w: Span)
    requires Word(s, w)
    ensures Covers(s, {w}, w.q, w.eq)
  {
    forall v | Word(s, v) && w.q <= v.q < w.eq ensures v == w { }
  }

  /** What gettoken returns: 0, a symbol, '+' for >>, or 'a' for a word. */
  datatype Token = End | Sym(c: char) | Append | Str

  /** Commands wrapped in redirections, the first innermost. */
  datatype Part = Part(file: Span, mode: Mode, fd: nat)

  function Wrap(cmd: Cmd, rs: seq<Part>): Cmd {
    if rs == [] then cmd
    else
      var r := rs[|rs| - 1];
      Redir(Wrap(cmd, rs[..|rs| - 1]), r.file, r.mode, r.fd)
  }

  function Files(rs: seq<Part>): set<Span> { set k | 0 <= k < |rs| :: rs[k].file }

  lemma {:induction false} WrapSpans(cmd: Cmd, rs: seq<Part>)
    ensures Spans(Wrap(cmd, rs)) == Spans(cmd) + Files(rs)
  {
    if rs != [] {
      WrapSpans(cmd, rs[..|rs| - 1]);
      assert Files(rs) == Files(rs[..|rs| - 1]) + {rs[|rs| - 1].file};
    }
  }

  // The grammar, as a relation between a stretch a .. b of the line and what it reads as.

  predicate Blanks(s: Line, a: nat, b: nat) { a <= b <= |s| && forall i :: a <= i < b ==> Blank(s[i]) }

  /** One symbol at m, with blanks around it; a single '>' is not half of ">>". */
  predicate SymbolIs(s: Line, c: char, a: nat, m: nat, b: nat) {
    m < b <= |s| && Blanks(s, a, m) && s[m] == c && Blanks(s, m + 1, b) && (c == '>' ==> At(s, m + 1) != '>')
  }

  predicate SymbolAt(s: Line, c: char, a: nat, b: nat) { exists m :: a <= m < b && SymbolIs(s, c, a, m, b) }

  predicate AppendIs(s: Line, a: nat, m: nat, b: nat) {
    m + 1 < b <= |s| && Blanks(s, a, m) && s[m] == s[m + 1] == '>' && Blanks(s, m + 2, b)
  }

  predicate AppendAt(s: Line, a: nat, b: nat) { exists m :: a <= m < b && AppendIs(s, a, m, b) }

  predicate StringAt(s: Line, w: Span, a: nat, b: nat) {
    Word(s, w) && Blanks(s, a, w.q) && Blanks(s, w.eq, b)
  }

  /** <file reads descriptor 0; >file and >>file write descriptor 1. */
  predicate RedirIs(s: Line, r: Part, a: nat, m: nat, b: nat) {
    && a < m <= b && StringAt(s, r.file, m, b)
    && (if r.mode.Read? then r.fd == 0 && SymbolAt(s, '<', a, m)
        else r.fd == 1 && (SymbolAt(s, '>', a, m) || AppendAt(s, a, m)))
  }

  predicate RedirAt(s: Line, r: Part, a: nat, b: nat) { exists m :: a < m <= b && RedirIs(s, r, a, m, b) }

  predicate Redirs(s: Line, rs: seq<Part>, a: nat, b: nat)
    decreases |rs|
  {
    if rs == [] then Blanks(s, a, b)
    else exists m {:trigger Redirs(s, rs[..|rs| - 1], a, m)} ::
        a <= m <= b && Redirs(s, rs[..|rs| - 1], a, m) && RedirAt(s, rs[|rs| - 1], m, b)
  }

  /** Words and redirections, in any mixture. */
  predicate Args(s: Line, argv: seq<Span>, rs: seq<Part>, a: nat, b: nat)
    decreases |argv|
  {
    if argv == [] then Redirs(s, rs, a, b)
    else exists k, m {:trigger ArgsBut(s, argv, rs, a, k, m, b)} ::
        0 <= k <= |rs| && a <= m <= b && ArgsBut(s, argv, rs, a, k, m, b)
  }

  /** The last word begins at m, after the first k redirections. */
  predicate ArgsBut(s: Line, argv: seq<Span>, rs: seq<Part>, a: nat, k: nat, m: nat, b: nat)
    requires argv != []
    decreases |argv|, 0
  {
    && k <= |rs| && Args(s, argv[..|argv| - 1], rs[..k], a, m)
    && exists e :: m <= e <= b && StringAt(s, argv[|argv| - 1], m, e) && Redirs(s, rs[k..], e, b)
  }

  datatype Level = LineLevel | BackLevel | PipeLevel | ExecLevel

  function Rank(l: Level): nat {
    match l
    case LineLevel => 3
    case BackLevel => 2
    case PipeLevel => 1
    case ExecLevel => 0
  }

  /** The stretch a .. b reads as cmd.
      line: backs [; line]     backs: pipe {&}     pipe: exec [| pipe]     exec: ( line ) redirs, or words and redirs */
  ghost predicate Reads(s: Line, l: Level, cmd: Cmd, a: nat, b: nat)
    decreases if a <= b then b - a else 0, Rank(l), cmd
  {
    && a <= b
    && match l
       case LineLevel =>
         || Reads(s, BackLevel, cmd, a, b)
         || (cmd.List? &&
             exists m, n ::
             a <= m < n <= b && Reads(s, BackLevel, cmd.left, a, m) && SymbolAt(s, ';', m, n) &&
             Reads(s, LineLevel, cmd.right, n, b))
       case BackLevel =>
         || Reads(s, PipeLevel, cmd, a, b)
         || (cmd.Back? && exists m :: a <= m < b && Reads(s, BackLevel, cmd.cmd, a, m) && SymbolAt(s, '&', m, b))
       case PipeLevel =>
         || Reads(s, ExecLevel, cmd, a, b)
         || (cmd.Pipe? &&
             exists m, n ::
             a <= m < n <= b && Reads(s, ExecLevel, cmd.left, a, m) && SymbolAt(s, '|', m, n) &&
             Reads(s, PipeLevel, cmd.right, n, b))
       case ExecLevel =>
         || (exists argv, rs :: cmd == Wrap(Exec(argv), rs) && |argv| < MAXARGS && Args(s, argv, rs, a, b))
         || (exists c, rs, m, n, e ::
             a < m <= n < e <= b && cmd == Wrap(c, rs) && SymbolAt(s, '(', a, m) && Reads(s, LineLevel, c, m, n)
                                      && SymbolAt(s, ')', n, e) && Redirs(s, rs, e, b))
  }

  predicate TokenIs(s: Line, tok: Token, w: Span, a: nat, b: nat) {
    match tok
    case End => Blanks(s, a, b) && b == |s|
    case Sym(c) => Symbol(c) && SymbolAt(s, c, a, b)
    case Append => AppendAt(s, a, b)
    case Str => StringAt(s, w, a, b)
  }

  lemma SymbolLead(s: Line, c: char, a: nat, b: nat, d: nat)
    requires Blanks(s, a, b) && SymbolAt(s, c, b, d)
    ensures SymbolAt(s, c, a, d)
  {
    var m :| b <= m < d && SymbolIs(s, c, b, m, d);
    assert SymbolIs(s, c, a, m, d);
  }

  lemma RedirsGrow(s: Line, rs: seq<Part>, r: Part, a: nat, m: nat, b: nat)
    requires a <= m <= b && Redirs(s, rs, a, m) && RedirAt(s, r, m, b)
    ensures Redirs(s, rs + [r], a, b)
  {
    assert (rs + [r])[..|rs|] == rs;
  }

  lemma ArgsGrow(s: Line, argv: seq<Span>, w: Span, rs: seq<Part>, more: seq<Part>, a: nat, m: nat, e: nat, b: nat)
    requires a <= m <= e <= b && Args(s, argv, rs, a, m) && StringAt(s, w, m, e) && Redirs(s, more, e, b)
    ensures Args(s, argv + [w], rs + more, a, b)
  {
    var argv', rs' := argv + [w], rs + more;
    assert argv'[..|argv|] == argv && rs'[..|rs|] == rs && rs'[|rs|..] == more;
    assert ArgsBut(s, argv', rs', a, |rs|, m, b);
  }

  lemma ListReads(s: Line, l: Cmd, r: Cmd, a: nat, m: nat, n: nat, b: nat)
    requires a <= m < n <= b && Reads(s, BackLevel, l, a, m) && SymbolAt(s, ';', m, n) && Reads(s, LineLevel, r, n, b)
    ensures Reads(s, LineLevel, List(l, r), a, b)
  {
    var c := List(l, r);
    assert Reads(s, BackLevel, c.left, a, m) && SymbolAt(s, ';', m, n) && Reads(s, LineLevel, c.right, n, b);
  }

  lemma PipeReads(s: Line, l: Cmd, r: Cmd, a: nat, m: nat, n: nat, b: nat)
    requires a <= m < n <= b && Reads(s, ExecLevel, l, a, m) && SymbolAt(s, '|', m, n) && Reads(s, PipeLevel, r, n, b)
    ensures Reads(s, PipeLevel, Pipe(l, r), a, b)
  {
    var c := Pipe(l, r);
    assert Reads(s, ExecLevel, c.left, a, m) && SymbolAt(s, '|', m, n) && Reads(s, PipeLevel, c.right, n, b);
  }

  lemma BlockReads(s: Line, c: Cmd, rs: seq<Part>, a: nat, m: nat, n: nat, e: nat, b: nat)
    requires a < m <= n < e <= b && SymbolAt(s, '(', a, m) && Reads(s, LineLevel, c, m, n) && SymbolAt(s, ')', n, e) &&
             Redirs(s, rs, e, b)
    ensures Reads(s, ExecLevel, Wrap(c, rs), a, b)
  {
  }

  // A command refers to every word of its stretch of the line, and to nothing else.

  function Words(argv: seq<Span>, rs: seq<Part>): set<Span> { (set w | w in argv) + Files(rs) }

  lemma FilesAppend(rs: seq<Part>, r: Part)
    ensures Files(rs + [r]) == Files(rs) + {r.file}
  {
    var t := rs + [r];
    assert forall k :: 0 <= k < |rs| ==> t[k] == rs[k];
    assert t[|rs|] == r;
  }

  lemma FilesJoin(rs: seq<Part>, more: seq<Part>)
    ensures Files(rs + more) == Files(rs) + Files(more)
  {
    var t := rs + more;
    assert forall k :: 0 <= k < |rs| ==> t[k] == rs[k];
    assert forall k :: 0 <= k < |more| ==> t[|rs| + k] == more[k];
  }

  lemma SymbolCovers(s: Line, c: char, a: nat, b: nat)
    requires SymbolAt(s, c, a, b) && Symbol(c) && Boundary(s, a)
    ensures Covers(s, {}, a, b)
  {
    CoversNone(s, a, b);
  }

  lemma AppendCovers(s: Line, a: nat, b: nat)
    requires AppendAt(s, a, b) && Boundary(s, a)
    ensures Covers(s, {}, a, b)
  {
    CoversNone(s, a, b);
  }

  lemma StringCovers(s: Line, w: Span, a: nat, b: nat)
    requires StringAt(s, w, a, b) && Boundary(s, a)
    ensures Covers(s, {w}, a, b)
  {
    CoversNone(s, a, w.q);
    CoversWord(s, w);
    CoversJoin(s, {}, {w}, a, w.q, w.eq);
    CoversNone(s, w.eq, b);
    CoversJoin(s, {} + {w}, {}, a, w.eq, b);
    assert {} + {w} + {} == {w};
  }

  lemma RedirCovers(s: Line, r: Part, a: nat, b: nat)
    requires RedirAt(s, r, a, b) && Boundary(s, a)
    ensures Covers(s, {r.file}, a, b)
  {
    var m :| a < m <= b && RedirIs(s, r, a, m, b);
    if AppendAt(s, a, m) { AppendCovers(s, a, m); } else { SymbolCovers(s, if r.mode.Read? then '<' else '>', a, m); }
    StringCovers(s, r.file, m, b);
    CoversJoin(s, {}, {r.file}, a, m, b);
    assert {} + {r.file} == {r.file};
  }

  lemma {:induction false} RedirsCover(s: Line, rs: seq<Part>, a: nat, b: nat)
    requires Redirs(s, rs, a, b) && Boundary(s, a)
    ensures Covers(s, Files(rs), a, b)
    decreases |rs|
  {
    if rs == [] {
      CoversNone(s, a, b);
      assert Files(rs) == {};
    } else {
      var o, r := rs[..|rs| - 1], rs[|rs| - 1];
      var m :| a <= m <= b && Redirs(s, o, a, m) && RedirAt(s, r, m, b);
      RedirsCover(s, o, a, m);
      RedirCovers(s, r, m, b);
      CoversJoin(s, Files(o), {r.file}, a, m, b);
      assert Files(rs) == Files(o) + {r.file} by {
        FilesAppend(o, r);
        assert o + [r] == rs;
      }
    }
  }

  lemma {:induction false} ArgsCover(s: Line, argv: seq<Span>, rs: seq<Part>, a: nat, b: nat)
    requires Args(s, argv, rs, a, b) && Boundary(s, a)
    ensures Covers(s, Words(argv, rs), a, b)
    decreases |argv|
  {
    if argv == [] {
      RedirsCover(s, rs, a, b);
      assert Words(argv, rs) == Files(rs);
    } else {
      var k, m :| 0 <= k <= |rs| && a <= m <= b && ArgsBut(s, argv, rs, a, k, m, b);
      var o, w := argv[..|argv| - 1], argv[|argv| - 1];
      var e :| m <= e <= b && StringAt(s, w, m, e) && Redirs(s, rs[k..], e, b);
      ArgsCover(s, o, rs[..k], a, m);
      StringCovers(s, w, m, e);
      RedirsCover(s, rs[k..], e, b);
      CoversJoin(s, Words(o, rs[..k]), {w}, a, m, e);
      CoversJoin(s, Words(o, rs[..k]) + {w}, Files(rs[k..]), a, e, b);
      WordsSplit(argv, rs, k);
    }
  }

  lemma WordsSplit(argv: seq<Span>, rs: seq<Part>, k: nat)
    requires argv != [] && k <= |rs|
    ensures Words(argv[..|argv| - 1], rs[..k]) + {argv[|argv| - 1]} + Files(rs[k..]) == Words(argv, rs)
  {
    FilesJoin(rs[..k], rs[k..]);
    assert rs[..k] + rs[k..] == rs && argv == argv[..|argv| - 1] + [argv[|argv| - 1]];
  }

  /** What reads as cmd contains exactly the words that cmd refers to. */
  lemma {:induction false} ReadsCovers(s: Line, l: Level, cmd: Cmd, a: nat, b: nat)
    requires Reads(s, l, cmd, a, b) && Boundary(s, a)
    ensures Covers(s, Spans(cmd), a, b)
    decreases b - a, Rank(l) + 1, cmd
  {
    match l
    case LineLevel =>
      if Reads(s, BackLevel, cmd, a, b) {
        ReadsCovers(s, BackLevel, cmd, a, b);
      } else {
        var m, n :| a <= m < n <= b && Reads(s, BackLevel, cmd.left, a, m) && SymbolAt(s, ';', m, n) &&
            Reads(s, LineLevel, cmd.right, n, b);
        ReadsCovers(s, BackLevel, cmd.left, a, m);
        SymbolCovers(s, ';', m, n);
        ReadsCovers(s, LineLevel, cmd.right, n, b);
        JoinThree(s, Spans(cmd.left), Spans(cmd.right), a, m, n, b);
      }
    case BackLevel =>
      if Reads(s, PipeLevel, cmd, a, b) {
        ReadsCovers(s, PipeLevel, cmd, a, b);
      } else {
        var m :| a <= m < b && Reads(s, BackLevel, cmd.cmd, a, m) && SymbolAt(s, '&', m, b);
        ReadsCovers(s, BackLevel, cmd.cmd, a, m);
        SymbolCovers(s, '&', m, b);
        Passed(s, Spans(cmd.cmd), a, m, b);
      }
    case PipeLevel =>
      if Reads(s, ExecLevel, cmd, a, b) {
        ReadsCovers(s, ExecLevel, cmd, a, b);
      } else {
        var m, n :| a <= m < n <= b && Reads(s, ExecLevel, cmd.left, a, m) && SymbolAt(s, '|', m, n) &&
            Reads(s, PipeLevel, cmd.right, n, b);
        ReadsCovers(s, ExecLevel, cmd.left, a, m);
        SymbolCovers(s, '|', m, n);
        ReadsCovers(s, PipeLevel, cmd.right, n, b);
        JoinThree(s, Spans(cmd.left), Spans(cmd.right), a, m, n, b);
      }
    case ExecLevel => ExecCovers(s, cmd, a, b);
  }

  lemma {:induction false} ExecCovers(s: Line, cmd: Cmd, a: nat, b: nat)
    requires Reads(s, ExecLevel, cmd, a, b) && Boundary(s, a)
    ensures Covers(s, Spans(cmd), a, b)
    decreases b - a, 0
  {
    if argv, rs :| cmd == Wrap(Exec(argv), rs) && |argv| < MAXARGS && Args(s, argv, rs, a, b) {
      ArgsCover(s, argv, rs, a, b);
      WrapSpans(Exec(argv), rs);
    } else {
      var c, rs, m, n, e :| a < m <= n < e <= b && cmd == Wrap(c, rs) && SymbolAt(s, '(', a, m) &&
          Reads(s, LineLevel, c, m, n)
                            && SymbolAt(s, ')', n, e) && Redirs(s, rs, e, b);
      SymbolCovers(s, '(', a, m);
      ReadsCovers(s, LineLevel, c, m, n);
      CoversJoin(s, {}, Spans(c), a, m, n);
      SymbolCovers(s, ')', n, e);
      RedirsCover(s, rs, e, b);
      JoinThree(s, {} + Spans(c), Files(rs), a, n, e, b);
      WrapSpans(c, rs);
      assert {} + Spans(c) + Files(rs) == Spans(cmd);
    }
  }

  /** Passing a stretch without words. */
  lemma Passed(s: Line, ws: set<Span>, a: nat, b: nat, c: nat)
    requires Covers(s, ws, a, b) && Covers(s, {}, b, c)
    ensures Covers(s, ws, a, c)
  {
  }

  lemma JoinThree(s: Line, ws: set<Span>, vs: set<Span>, a: nat, m: nat, n: nat, b: nat)
    requires Covers(s, ws, a, m) && Covers(s, {}, m, n) && Covers(s, vs, n, b)
    ensures Covers(s, ws + vs, a, b)
  {
    Passed(s, ws, a, m, n);
    CoversJoin(s, ws, vs, a, n, b);
  }

  // ---------- The grammar is unambiguous ----------

  /** The first position from p on that is not a blank. */
  function Skip(s: Line, p: nat): (r: nat)
    requires p <= |s|
    ensures p <= r <= |s| && Blanks(s, p, r) && !Blank(At(s, r))
    decreases |s| - p
  {
    if p < |s| && Blank(s[p]) then Skip(s, p + 1) else p
  }

  lemma {:induction false} SkipOver(s: Line, p: nat, q: nat)
    requires Blanks(s, p, q)
    ensures Skip(s, p) == Skip(s, q)
    decreases q - p
  {
    if p < q { SkipOver(s, p + 1, q); }
  }

  /** Only blanks lie between the two positions. */
  predicate Same(s: Line, p: nat, q: nat) { p <= |s| && q <= |s| && Skip(s, p) == Skip(s, q) }

  lemma SymbolUnique(s: Line, c: char, a: nat, b: nat)
    requires SymbolAt(s, c, a, b) && Symbol(c)
    ensures At(s, Skip(s, a)) == c && Skip(s, a) < |s| && Same(s, b, Skip(s, a) + 1) &&
            (c == '>' ==> At(s, Skip(s, a) + 1) != '>')
  {
    var m :| a <= m < b && SymbolIs(s, c, a, m, b);
    SkipOver(s, a, m);
    SkipOver(s, m + 1, b);
  }

  lemma AppendUnique(s: Line, a: nat, b: nat)
    requires AppendAt(s, a, b)
    ensures At(s, Skip(s, a)) == '>' == At(s, Skip(s, a) + 1) && Skip(s, a) + 2 <= |s| && Same(s, b, Skip(s, a) + 2)
  {
    var m :| a <= m < b && AppendIs(s, a, m, b);
    SkipOver(s, a, m);
    SkipOver(s, m + 2, b);
  }

  lemma StringUnique(s: Line, w: Span, a: nat, b: nat, v: Span, c: nat, d: nat)
    requires StringAt(s, w, a, b) && StringAt(s, v, c, d) && Same(s, a, c)
    ensures w == v && Same(s, b, d)
  {
    StringStarts(s, w, a, b);
    StringStarts(s, v, c, d);
    SkipOver(s, w.eq, b);
    SkipOver(s, v.eq, d);
  }

  lemma StringStarts(s: Line, w: Span, a: nat, b: nat)
    requires StringAt(s, w, a, b)
    ensures a <= |s| && Skip(s, a) == w.q < |s| && WordChar(At(s, w.q))
  {
    SkipOver(s, a, w.q);
  }

  lemma RedirStarts(s: Line, r: Part, a: nat, b: nat)
    requires RedirAt(s, r, a, b)
    ensures a <= b <= |s| && At(s, Skip(s, a)) in {'<', '>'}
  {
    var m :| a < m <= b && RedirIs(s, r, a, m, b);
    if AppendAt(s, a, m) { AppendUnique(s, a, m); } else { SymbolUnique(s, if r.mode.Read? then '<' else '>', a, m); }
  }

  /** Where the file name of a redirection starts. */
  function FileFrom(s: Line, p: nat): nat { if At(s, p) == '>' == At(s, p + 1) then p + 2 else p + 1 }

  lemma RedirSplits(s: Line, r: Part, a: nat, b: nat) returns (m: nat)
    requires RedirAt(s, r, a, b)
    ensures a < m <= b <= |s| && StringAt(s, r.file, m, b) && FileFrom(s, Skip(s, a)) <= |s| &&
            Same(s, m, FileFrom(s, Skip(s, a)))
    ensures r == if At(s, Skip(s, a)) == '<' then Part(r.file, Read, 0) else Part(r.file, Write, 1)
  {
    m :| a < m <= b && RedirIs(s, r, a, m, b);
    if AppendAt(s, a, m) { AppendUnique(s, a, m); } else { SymbolUnique(s, if r.mode.Read? then '<' else '>', a, m); }
  }

  lemma RedirUnique(s: Line, r: Part, a: nat, b: nat, q: Part, c: nat, d: nat)
    requires RedirAt(s, r, a, b) && RedirAt(s, q, c, d) && Same(s, a, c)
    ensures r == q && Same(s, b, d)
  {
    var m := RedirSplits(s, r, a, b);
    var n := RedirSplits(s, q, c, d);
    StringUnique(s, r.file, m, b, q.file, n, d);
  }

  lemma RedirsLast(s: Line, rs: seq<Part>, a: nat, b: nat) returns (m: nat)
    requires Redirs(s, rs, a, b) && rs != []
    ensures a <= m <= b && Redirs(s, rs[..|rs| - 1], a, m) && RedirAt(s, rs[|rs| - 1], m, b)
  {
    m :| a <= m <= b && Redirs(s, rs[..|rs| - 1], a, m) && RedirAt(s, rs[|rs| - 1], m, b);
  }

  lemma SameParts(rs: seq<Part>, qs: seq<Part>)
    requires |rs| == |qs| > 0 && rs[..|rs| - 1] == qs[..|qs| - 1] && rs[|rs| - 1] == qs[|qs| - 1]
    ensures rs == qs
  {
    assert rs == rs[..|rs| - 1] + [rs[|rs| - 1]] && qs == qs[..|qs| - 1] + [qs[|qs| - 1]];
  }

  lemma NoRedirs(s: Line, a: nat, b: nat)
    requires Redirs(s, [], a, b)
    ensures Same(s, a, b)
  {
    SkipOver(s, a, b);
  }

  /** As many redirections from the same place are the same redirections. */
  lemma {:induction false} RedirsUnique(s: Line, rs: seq<Part>, a: nat, b: nat, qs: seq<Part>, c: nat, d: nat)
    requires Redirs(s, rs, a, b) && Redirs(s, qs, c, d) && Same(s, a, c) && |rs| == |qs|
    ensures rs == qs && Same(s, b, d)
    decreases |rs|
  {
    if |rs| == 0 {
      NoRedirs(s, a, b);
      NoRedirs(s, c, d);
    } else {
      var m := RedirsLast(s, rs, a, b);
      var n := RedirsLast(s, qs, c, d);
      RedirsUnique(s, rs[..|rs| - 1], a, m, qs[..|qs| - 1], c, n);
      RedirUnique(s, rs[|rs| - 1], m, b, qs[|qs| - 1], n, d);
      SameParts(rs, qs);
    }
  }

  /** The first k redirections, and where the next one starts. */
  lemma {:induction false} RedirsPrefix(s: Line, rs: seq<Part>, a: nat, b: nat, k: nat) returns (m: nat, n: nat)
    requires Redirs(s, rs, a, b) && k < |rs|
    ensures a <= m <= n <= b <= |s| && Redirs(s, rs[..k], a, m) && RedirAt(s, rs[k], m, n)
    decreases |rs|
  {
    var o := rs[..|rs| - 1];
    m := RedirsLast(s, rs, a, b);
    n := b;
    RedirStarts(s, rs[|rs| - 1], m, b);
    if k < |o| {
      m, n := RedirsPrefix(s, o, a, m, k);
      assert o[..k] == rs[..k];
    }
  }

  /** No redirection follows. */
  predicate RedirsDone(s: Line, b: nat) { b <= |s| && At(s, Skip(s, b)) !in {'<', '>'} }

  /** One derivation cannot stop, with no redirection to follow, where another one goes on. */
  lemma RedirsSameLength(s: Line, rs: seq<Part>, a: nat, b: nat, qs: seq<Part>, c: nat, d: nat)
    requires Redirs(s, rs, a, b) && Redirs(s, qs, c, d) && Same(s, a, c) && RedirsDone(s, b)
    ensures |qs| <= |rs|
  {
    if |qs| > |rs| {
      var m, n := RedirsPrefix(s, qs, c, d, |rs|);
      RedirsUnique(s, rs, a, b, qs[..|rs|], c, m);
      RedirStarts(s, qs[|rs|], m, n);
      assert false;
    }
  }

  lemma RedirsAgree(s: Line, rs: seq<Part>, a: nat, b: nat, qs: seq<Part>, c: nat, d: nat)
    requires Redirs(s, rs, a, b) && Redirs(s, qs, c, d) && Same(s, a, c) && RedirsDone(s, b) && RedirsDone(s, d)
    ensures rs == qs && Same(s, b, d)
  {
    RedirsSameLength(s, rs, a, b, qs, c, d);
    RedirsSameLength(s, qs, c, d, rs, a, b);
    RedirsUnique(s, rs, a, b, qs, c, d);
  }

  lemma ArgsLast(s: Line, argv: seq<Span>, rs: seq<Part>, a: nat, b: nat) returns (k: nat, m: nat, e: nat)
    requires Args(s, argv, rs, a, b) && argv != []
    ensures k <= |rs| && a <= m <= e <= b && Args(s, argv[..|argv| - 1], rs[..k], a, m)
    ensures StringAt(s, argv[|argv| - 1], m, e) && Redirs(s, rs[k..], e, b)
  {
    k, m :| 0 <= k <= |rs| && a <= m <= b && ArgsBut(s, argv, rs, a, k, m, b);
    e :| m <= e <= b && StringAt(s, argv[|argv| - 1], m, e) && Redirs(s, rs[k..], e, b);
  }

  lemma SameArgs(argv: seq<Span>, rs: seq<Part>, k: nat, brgv: seq<Span>, qs: seq<Part>, l: nat)
    requires |argv| == |brgv| > 0 && argv[..|argv| - 1] == brgv[..|brgv| - 1] && argv[|argv| - 1] == brgv[|brgv| - 1]
    requires k <= |rs| && l <= |qs| && rs[..k] == qs[..l] && rs[k..] == qs[l..]
    ensures argv == brgv && rs == qs
  {
    assert argv == argv[..|argv| - 1] + [argv[|argv| - 1]] && brgv == brgv[..|brgv| - 1] + [brgv[|brgv| - 1]];
    assert rs == rs[..k] + rs[k..] && qs == qs[..l] + qs[l..];
  }

  /** As many words, with all redirections around them, are the same words and redirections. */
  lemma {:induction false} ArgsUnique(s: Line, argv: seq<Span>, rs: seq<Part>, a: nat, b: nat, brgv: seq<Span>,
          qs: seq<Part>, c: nat, d: nat)
    requires Args(s, argv, rs, a, b) && Args(s, brgv, qs, c, d) && Same(s, a, c) && |argv| == |brgv| &&
             RedirsDone(s, b) && RedirsDone(s, d)
    ensures argv == brgv && rs == qs && Same(s, b, d)
    decreases |argv|
  {
    if |argv| == 0 {
      RedirsAgree(s, rs, a, b, qs, c, d);
    } else {
      var k, m, e := ArgsLast(s, argv, rs, a, b);
      var l, n, f := ArgsLast(s, brgv, qs, c, d);
      StringStarts(s, argv[|argv| - 1], m, e);
      StringStarts(s, brgv[|brgv| - 1], n, f);
      ArgsUnique(s, argv[..|argv| - 1], rs[..k], a, m, brgv[..|brgv| - 1], qs[..l], c, n);
      StringUnique(s, argv[|argv| - 1], m, e, brgv[|brgv| - 1], n, f);
      RedirsAgree(s, rs[k..], e, b, qs[l..], f, d);
      SameArgs(argv, rs, k, brgv, qs, l);
    }
  }

  /** The first j words with the redirections around them; what follows is the next word. */
  lemma {:induction false} ArgsPrefix(s: Line, argv: seq<Span>, rs: seq<Part>, a: nat, b: nat, j: nat)
      returns (k: nat, m: nat)
    requires Args(s, argv, rs, a, b) && j <= |argv| && RedirsDone(s, b)
    ensures k <= |rs| && m <= b && Args(s, argv[..j], rs[..k], a, m) && RedirsDone(s, m)
    ensures if j < |argv| then WordChar(At(s, Skip(s, m))) else m == b
    decreases |argv|
  {
    if j == |argv| {
      k, m := |rs|, b;
      assert argv[..j] == argv && rs[..k] == rs;
    } else {
      var o, e := argv[..|argv| - 1], 0;
      k, m, e := ArgsLast(s, argv, rs, a, b);
      StringStarts(s, argv[|argv| - 1], m, e);
      if j < |o| {
        var l;
        l, m := ArgsPrefix(s, o, rs[..k], a, m, j);
        assert o[..j] == argv[..j] && rs[..k][..l] == rs[..l];
        k := l;
      }
    }
  }

  // ---------- What a parser that stops at the right places finds ----------

  predicate Follows(l: Level, c: char) {
    || c in {')', '\0'}
    || (!l.LineLevel? && c == ';')
    || ((l.PipeLevel? || l.ExecLevel?) && c == '&')
    || (l.ExecLevel? && c == '|')
  }

  /** What comes after b can follow a command of this level. */
  predicate Stops(s: Line, l: Level, b: nat) { b <= |s| && Follows(l, At(s, Skip(s, b))) }

  /** Whatever reads as a command from a on, up to where one can stop, has been found: the command is cmd and
      ends at e. If nothing has been found (not ok), then nothing reads as a command there. */
  ghost predicate Finds(s: Line, l: Level, a: nat, ok: bool, cmd: Cmd, e: nat) {
    forall c: Cmd, p: nat, b: nat {:trigger Reads(s, l, c, p, b)} ::
      Reads(s, l, c, p, b) && Same(s, p, a) && Stops(s, l, b) ==> ok && c == cmd && Skip(s, b) == e
  }

  ghost predicate RedirsFind(s: Line, a: nat, ok: bool, rs: seq<Part>, e: nat) {
    forall qs: seq<Part>, p: nat, b: nat {:trigger Redirs(s, qs, p, b)} ::
      Redirs(s, qs, p, b) && Same(s, p, a) && RedirsDone(s, b) ==> ok && qs == rs && Skip(s, b) == e
  }

  lemma RedirsFound(s: Line, rs: seq<Part>, a: nat, e: nat)
    requires Redirs(s, rs, a, e) && a <= |s| && RedirsDone(s, e) && !Blank(At(s, e))
    ensures RedirsFind(s, a, true, rs, e)
  {
    forall qs: seq<Part>, p: nat, b: nat | Redirs(s, qs, p, b) && Same(s, p, a) && RedirsDone(s, b)
      ensures qs == rs && Skip(s, b) == e
    {
      RedirsAgree(s, qs, p, b, rs, a, e);
    }
  }

  /** A redirection without a file name: no derivation gets past it. */
  lemma BrokenRedir(s: Line, rs: seq<Part>, a: nat, e: nat, qs: seq<Part>, p: nat, b: nat)
    requires Redirs(s, rs, a, e) && a <= |s| && e < |s| && s[e] in {'<', '>'}
    requires FileFrom(s, e) <= |s| && !WordChar(At(s, Skip(s, FileFrom(s, e))))
    requires Redirs(s, qs, p, b) && Same(s, p, a)
    ensures !RedirsDone(s, b)
  {
    if RedirsDone(s, b) {
      RedirsSameLength(s, qs, p, b, rs, a, e);
      if |qs| == |rs| {
        RedirsUnique(s, qs, p, b, rs, a, e);
      } else {
        var m, n := RedirsPrefix(s, qs, p, b, |rs|);
        RedirsUnique(s, qs[..|rs|], p, m, rs, a, e);
        var f := RedirSplits(s, qs[|rs|], m, n);
        StringStarts(s, qs[|rs|].file, f, n);
      }
      assert false;
    }
  }

  lemma RedirsBroken(s: Line, rs: seq<Part>, a: nat, e: nat, any: seq<Part>, end: nat)
    requires Redirs(s, rs, a, e) && a <= |s| && e < |s| && s[e] in {'<', '>'}
    requires FileFrom(s, e) <= |s| && !WordChar(At(s, Skip(s, FileFrom(s, e))))
    ensures RedirsFind(s, a, false, any, end)
  {
    forall qs: seq<Part>, p: nat, b: nat | Redirs(s, qs, p, b) && Same(s, p, a) ensures !RedirsDone(s, b) {
      BrokenRedir(s, rs, a, e, qs, p, b);
    }
  }

  /** A plain command does not start with a parenthesis. */
  lemma PlainStarts(s: Line, argv: seq<Span>, rs: seq<Part>, a: nat, b: nat)
    requires Args(s, argv, rs, a, b) && Stops(s, ExecLevel, b) && a <= |s|
    ensures At(s, Skip(s, a)) != '('
  {
    var k, m := ArgsPrefix(s, argv, rs, a, b, 0);
    assert Redirs(s, rs[..k], a, m);
    if k == 0 {
      NoRedirs(s, a, m);
    } else {
      var n, o := RedirsPrefix(s, rs[..k], a, m, 0);
      NoRedirs(s, a, n);
      RedirStarts(s, rs[..k][0], n, o);
    }
  }

  lemma ExecSplits(s: Line, cmd: Cmd, a: nat, b: nat) returns (argv: seq<Span>, rs: seq<Part>)
    requires Reads(s, ExecLevel, cmd, a, b) && a <= |s| && At(s, Skip(s, a)) != '('
    ensures cmd == Wrap(Exec(argv), rs) && |argv| < MAXARGS && Args(s, argv, rs, a, b)
  {
    if c, qs, m, n, e :|
      && a < m <= n < e <= b && cmd == Wrap(c, qs) && SymbolAt(s, '(', a, m)
      && Reads(s, LineLevel, c, m, n) && SymbolAt(s, ')', n, e) && Redirs(s, qs, e, b) {
      SymbolUnique(s, '(', a, m);
      assert false;
    }
    argv, rs :| cmd == Wrap(Exec(argv), rs) && |argv| < MAXARGS && Args(s, argv, rs, a, b);
  }

  /** The words read so far, argv up to m, are not more than those of a whole command, and not fewer unless a
      word follows. */
  lemma ArgsCompare(s: Line, argv: seq<Span>, rs: seq<Part>, a: nat, m: nat, brgv: seq<Span>, qs: seq<Part>, p: nat,
          b: nat)
    requires Args(s, argv, rs, a, m) && RedirsDone(s, m) && Args(s, brgv, qs, p, b) && Stops(s, ExecLevel, b) &&
             Same(s, p, a)
    ensures |argv| <= |brgv|
    ensures |brgv| > |argv| ==> WordChar(At(s, Skip(s, m)))
    ensures |brgv| == |argv| ==> brgv == argv && qs == rs && Same(s, b, m)
  {
    if |brgv| < |argv| {
      var k, n := ArgsPrefix(s, argv, rs, a, m, |brgv|);
      ArgsUnique(s, argv[..|brgv|], rs[..k], a, n, brgv, qs, p, b);
      assert false;
    } else {
      var k, n := ArgsPrefix(s, brgv, qs, p, b, |argv|);
      ArgsUnique(s, argv, rs, a, m, brgv[..|argv|], qs[..k], p, n);
      if |brgv| == |argv| {
        assert brgv[..|argv|] == brgv;
        ArgsUnique(s, argv, rs, a, m, brgv, qs, p, b);
      }
    }
  }

  /** The words end at e: no other command is there, and none at all if e cannot be the end of one. */
  lemma PlainFound(s: Line, argv: seq<Span>, rs: seq<Part>, a: nat, e: nat)
    requires Args(s, argv, rs, a, e) && a <= |s| && At(s, Skip(s, a)) != '(' && RedirsDone(s, e) && !Blank(At(s, e)) &&
             !WordChar(At(s, e))
    ensures Finds(s, ExecLevel, a, Follows(ExecLevel, At(s, e)), Wrap(Exec(argv), rs), e)
  {
    forall c: Cmd, p: nat, b: nat | Reads(s, ExecLevel, c, p, b) && Same(s, p, a) && Stops(s, ExecLevel, b)
      ensures Follows(ExecLevel, At(s, e)) && c == Wrap(Exec(argv), rs) && Skip(s, b) == e
    {
      var brgv, qs := ExecSplits(s, c, p, b);
      ArgsCompare(s, argv, rs, a, e, brgv, qs, p, b);
    }
  }

  /** No simple command or block is there. */
  ghost predicate Nothing(s: Line, a: nat) {
    forall c: Cmd, p: nat, b: nat {:trigger Reads(s, ExecLevel, c, p, b)} ::
      Reads(s, ExecLevel, c, p, b) && Same(s, p, a) ==> !Stops(s, ExecLevel, b)
  }

  /** The words end where no command can end. */
  lemma PlainStuck(s: Line, argv: seq<Span>, rs: seq<Part>, a: nat, e: nat)
    requires Args(s, argv, rs, a, e) && a <= |s| && At(s, Skip(s, a)) != '(' && RedirsDone(s, e) && !Blank(At(s, e)) &&
             !WordChar(At(s, e))
    requires !Follows(ExecLevel, At(s, e))
    ensures Nothing(s, a)
  {
    PlainFound(s, argv, rs, a, e);
  }

  /** Too many words. */
  lemma PlainTooLong(s: Line, argv: seq<Span>, rs: seq<Part>, a: nat, e: nat)
    requires Args(s, argv, rs, a, e) && a <= |s| && At(s, Skip(s, a)) != '(' && RedirsDone(s, e) &&
             WordChar(At(s, Skip(s, e)))
    requires |argv| + 1 >= MAXARGS
    ensures Nothing(s, a)
  {
    forall c: Cmd, p: nat, b: nat | Reads(s, ExecLevel, c, p, b) && Same(s, p, a) ensures !Stops(s, ExecLevel, b) {
      if Stops(s, ExecLevel, b) {
        var brgv, qs := ExecSplits(s, c, p, b);
        ArgsCompare(s, argv, rs, a, e, brgv, qs, p, b);
        assert false;
      }
    }
  }

  /** Broken redirections before the first word. */
  lemma PlainBrokenFirst(s: Line, a: nat, rs: seq<Part>, e: nat)
    requires a <= |s| && At(s, Skip(s, a)) != '(' && RedirsFind(s, a, false, rs, e)
    ensures Nothing(s, a)
  {
    forall c: Cmd, p: nat, b: nat | Reads(s, ExecLevel, c, p, b) && Same(s, p, a) ensures !Stops(s, ExecLevel, b) {
      if Stops(s, ExecLevel, b) {
        var brgv, qs := ExecSplits(s, c, p, b);
        var k, m := ArgsPrefix(s, brgv, qs, p, b, 0);
        assert false;
      }
    }
  }

  /** A whole command that has the word w has complete redirections after it. */
  lemma AfterWord(s: Line, argv: seq<Span>, rs: seq<Part>, a: nat, m: nat, w: Span, e: nat, brgv: seq<Span>,
          qs: seq<Part>, p: nat, b: nat)
    returns (more: seq<Part>, n: nat, o: nat)
    requires Args(s, argv, rs, a, m) && RedirsDone(s, m) && StringAt(s, w, m, e)
    requires Args(s, brgv, qs, p, b) && Same(s, p, a) && Stops(s, ExecLevel, b)
    ensures Redirs(s, more, n, o) && Same(s, n, e) && RedirsDone(s, o)
  {
    StringStarts(s, w, m, e);
    ArgsCompare(s, argv, rs, a, m, brgv, qs, p, b);
    var k;
    k, o := ArgsPrefix(s, brgv, qs, p, b, |argv| + 1);
    more, n := NextWord(s, argv, rs, a, m, w, e, brgv[..|argv| + 1], qs[..k], p, o);
  }

  lemma NextWord(s: Line, argv: seq<Span>, rs: seq<Part>, a: nat, m: nat, w: Span, e: nat, brgv: seq<Span>,
          qs: seq<Part>, p: nat, b: nat)
    returns (more: seq<Part>, n: nat)
    requires Args(s, argv, rs, a, m) && RedirsDone(s, m) && StringAt(s, w, m, e)
    requires Args(s, brgv, qs, p, b) && Same(s, p, a) && |brgv| == |argv| + 1
    ensures Redirs(s, more, n, b) && Same(s, n, e)
  {
    var l, o;
    l, o, n := ArgsLast(s, brgv, qs, p, b);
    StringStarts(s, brgv[|argv|], o, n);
    ArgsUnique(s, argv, rs, a, m, brgv[..|argv|], qs[..l], p, o);
    StringUnique(s, w, m, e, brgv[|argv|], o, n);
    more := qs[l..];
  }

  lemma PlainBroken(s: Line, argv: seq<Span>, rs: seq<Part>, a: nat, m: nat, w: Span, e: nat, more: seq<Part>, f: nat)
    requires Args(s, argv, rs, a, m) && a <= |s| && At(s, Skip(s, a)) != '(' && RedirsDone(s, m) && StringAt(s, w, m, e)
    requires RedirsFind(s, e, false, more, f)
    ensures Nothing(s, a)
  {
    forall c: Cmd, p: nat, b: nat | Reads(s, ExecLevel, c, p, b) && Same(s, p, a) ensures !Stops(s, ExecLevel, b) {
      if Stops(s, ExecLevel, b) {
        var brgv, qs := ExecSplits(s, c, p, b);
        var _, _, _ := AfterWord(s, argv, rs, a, m, w, e, brgv, qs, p, b);
        assert false;
      }
    }
  }

  /** What is not blank stays where it is. */
  lemma SkipStays(s: Line, p: nat)
    requires p <= |s| && !Blank(At(s, p))
    ensures Skip(s, p) == p
  {
  }

  /** The line inside a block. */
  lemma BlockLine(s: Line, a: nat, f: nat, ok: bool, cmd: Cmd, n: nat, c: Cmd, p: nat, m: nat, o: nat, q: nat)
    requires a <= |s| && At(s, Skip(s, a)) == '(' && Same(s, f, Skip(s, a) + 1) && Finds(s, LineLevel, f, ok, cmd, n)
    requires Same(s, p, a) && SymbolAt(s, '(', p, m) && Reads(s, LineLevel, c, m, o) && SymbolAt(s, ')', o, q)
    ensures ok && c == cmd && At(s, n) == ')' && q <= |s| && n < |s| && Same(s, q, n + 1)
  {
    SymbolUnique(s, '(', p, m);
    SymbolUnique(s, ')', o, q);
    assert Stops(s, LineLevel, o) && Same(s, m, f);
  }

  /** A block: its parts, found one after the other. */
  lemma BlockFound(s: Line, a: nat, f: nat, ok: bool, cmd: Cmd, n: nat, g: nat, ok': bool, rs: seq<Part>, e: nat)
    requires a <= |s| && At(s, Skip(s, a)) == '(' && Same(s, f, Skip(s, a) + 1) && Finds(s, LineLevel, f, ok, cmd, n)
    requires ok && At(s, n) == ')' ==> Same(s, g, n + 1) && RedirsFind(s, g, ok', rs, e)
    ensures Finds(s, ExecLevel, a, ok && At(s, n) == ')' && ok', Wrap(cmd, rs), e)
  {
    forall c: Cmd, p: nat, b: nat | Reads(s, ExecLevel, c, p, b) && Same(s, p, a) && Stops(s, ExecLevel, b)
      ensures ok && At(s, n) == ')' && ok' && c == Wrap(cmd, rs) && Skip(s, b) == e
    {
      var d, qs, m, o, q := BlockSplits(s, c, p, b);
      BlockLine(s, a, f, ok, cmd, n, d, p, m, o, q);
    }
  }

  lemma BlockSplits(s: Line, cmd: Cmd, a: nat, b: nat) returns (c: Cmd, rs: seq<Part>, m: nat, n: nat, e: nat)
    requires Reads(s, ExecLevel, cmd, a, b) && a <= |s| && At(s, Skip(s, a)) == '(' && Stops(s, ExecLevel, b)
    ensures a < m <= n < e <= b && cmd == Wrap(c, rs) && SymbolAt(s, '(', a, m) && Reads(s, LineLevel, c, m, n)
    ensures SymbolAt(s, ')', n, e) && Redirs(s, rs, e, b)
  {
    if argv, qs :| cmd == Wrap(Exec(argv), qs) && |argv| < MAXARGS && Args(s, argv, qs, a, b) {
      PlainStarts(s, argv, qs, a, b);
      assert false;
    }
    c, rs, m, n, e :| a < m <= n < e <= b && cmd == Wrap(c, rs) && SymbolAt(s, '(', a, m) &&
        Reads(s, LineLevel, c, m, n)
                      && SymbolAt(s, ')', n, e) && Redirs(s, rs, e, b);
  }

  /** A pipe: the first command is found up to n, and the rest from f on if there is a bar. */
  lemma PipeFound(s: Line, a: nat, ok: bool, cmd: Cmd, n: nat, f: nat, ok': bool, rest: Cmd, e: nat)
    requires Finds(s, ExecLevel, a, ok, cmd, n)
    requires ok && At(s, n) == '|' ==> Same(s, f, n + 1) && Finds(s, PipeLevel, f, ok', rest, e)
    ensures At(s, n) == '|' ==> Finds(s, PipeLevel, a, ok && ok', Pipe(cmd, rest), e)
    ensures !ok || At(s, n) != '|' ==> Finds(s, PipeLevel, a, ok, cmd, n)
  {
    forall c: Cmd, p: nat, b: nat | Reads(s, PipeLevel, c, p, b) && Same(s, p, a) && Stops(s, PipeLevel, b)
      ensures ok && if At(s, n) == '|' then ok' && c == Pipe(cmd, rest) && Skip(s, b) == e
                    else c == cmd && Skip(s, b) == n
    {
      if Reads(s, ExecLevel, c, p, b) {
        assert Stops(s, ExecLevel, b);
      } else {
        var m, o :| p <= m < o <= b && Reads(s, ExecLevel, c.left, p, m) && SymbolAt(s, '|', m, o) &&
            Reads(s, PipeLevel, c.right, o, b);
        SymbolUnique(s, '|', m, o);
        assert Stops(s, ExecLevel, m) && Same(s, o, f);
      }
    }
  }

  /** A list, in the same way. */
  lemma ListFound(s: Line, a: nat, ok: bool, cmd: Cmd, n: nat, f: nat, ok': bool, rest: Cmd, e: nat)
    requires Finds(s, BackLevel, a, ok, cmd, n)
    requires ok && At(s, n) == ';' ==> Same(s, f, n + 1) && Finds(s, LineLevel, f, ok', rest, e)
    ensures At(s, n) == ';' ==> Finds(s, LineLevel, a, ok && ok', List(cmd, rest), e)
    ensures !ok || At(s, n) != ';' ==> Finds(s, LineLevel, a, ok, cmd, n)
  {
    forall c: Cmd, p: nat, b: nat | Reads(s, LineLevel, c, p, b) && Same(s, p, a) && Stops(s, LineLevel, b)
      ensures ok && if At(s, n) == ';' then ok' && c == List(cmd, rest) && Skip(s, b) == e
                    else c == cmd && Skip(s, b) == n
    {
      if Reads(s, BackLevel, c, p, b) {
        assert Stops(s, BackLevel, b);
      } else {
        var m, o :| p <= m < o <= b && Reads(s, BackLevel, c.left, p, m) && SymbolAt(s, ';', m, o) &&
            Reads(s, LineLevel, c.right, o, b);
        SymbolUnique(s, ';', m, o);
        assert Stops(s, BackLevel, m) && Same(s, o, f);
      }
    }
  }

  /** A command sent to the background k times. */
  function Backs(cmd: Cmd, k: nat): Cmd { if k == 0 then cmd else Back(Backs(cmd, k - 1)) }

  /** The position after k ampersands from x on. */
  function Amps(s: Line, x: nat, k: nat): (r: nat)
    requires x <= |s|
    ensures r <= |s|
  {
    if k == 0 then x else
      var y := Amps(s, x, k - 1);
      if y < |s| then Skip(s, y + 1) else y
  }

  predicate AllAmps(s: Line, x: nat, k: nat)
    requires x <= |s|
  {
    forall i: nat :: i < k ==> At(s, Amps(s, x, i)) == '&'
  }

  lemma AmpNext(s: Line, x: nat, k: nat, b: nat)
    requires x <= |s| && AllAmps(s, x, k) && At(s, Amps(s, x, k)) == '&' && Same(s, b, Amps(s, x, k) + 1)
    ensures AllAmps(s, x, k + 1) && Amps(s, x, k + 1) == Skip(s, b)
  {
  }

  lemma BackLast(s: Line, cmd: Cmd, a: nat, b: nat) returns (n: nat)
    requires Reads(s, BackLevel, cmd, a, b) && !Reads(s, PipeLevel, cmd, a, b)
    ensures cmd.Back? && a <= n < b && Reads(s, BackLevel, cmd.cmd, a, n) && Stops(s, PipeLevel, n)
    ensures n <= |s| && At(s, Skip(s, n)) == '&' && Same(s, b, Skip(s, n) + 1)
  {
    n :| a <= n < b && Reads(s, BackLevel, cmd.cmd, a, n) && SymbolAt(s, '&', n, b);
    SymbolUnique(s, '&', n, b);
  }

  /** What reads as a background command is a pipe and a number of ampersands. */
  lemma {:induction false} BackSplits(s: Line, cmd: Cmd, a: nat, b: nat) returns (c: Cmd, m: nat, k: nat)
    requires Reads(s, BackLevel, cmd, a, b) && Stops(s, PipeLevel, b)
    ensures m <= b && Reads(s, PipeLevel, c, a, m) && Stops(s, PipeLevel, m)
    ensures cmd == Backs(c, k) && Skip(s, b) == Amps(s, Skip(s, m), k) && AllAmps(s, Skip(s, m), k)
    decreases b - a, cmd
  {
    if Reads(s, PipeLevel, cmd, a, b) {
      c, m, k := cmd, b, 0;
    } else {
      var n := BackLast(s, cmd, a, b);
      c, m, k := BackSplits(s, cmd.cmd, a, n);
      AmpNext(s, Skip(s, m), k, b);
      k := k + 1;
    }
  }

  /** The pipe is found up to n, and k ampersands after it. */
  lemma BackFound(s: Line, a: nat, ok: bool, cmd: Cmd, n: nat, k: nat)
    requires Finds(s, PipeLevel, a, ok, cmd, n) && n <= |s|
    requires ok ==> AllAmps(s, n, k) && At(s, Amps(s, n, k)) != '&'
    ensures Finds(s, BackLevel, a, ok, Backs(cmd, k), Amps(s, n, k))
  {
    forall c: Cmd, p: nat, b: nat | Reads(s, BackLevel, c, p, b) && Same(s, p, a) && Stops(s, BackLevel, b)
      ensures ok && c == Backs(cmd, k) && Skip(s, b) == Amps(s, n, k)
    {
      assert Stops(s, PipeLevel, b);
      var d, m, j := BackSplits(s, c, p, b);
      assert At(s, Amps(s, n, j)) != '&';
    }
  }

  /** The token that gettoken finds is told by the first character after blanks. */
  lemma TokenUnique(s: Line, tok: Token, w: Span, a: nat, b: nat)
    requires TokenIs(s, tok, w, a, b) && a <= |s|
    ensures tok.Str? <==> WordChar(At(s, Skip(s, a)))
    ensures tok.End? <==> At(s, Skip(s, a)) == '\0'
    ensures tok.Sym? ==>
            At(s, Skip(s, a)) == tok.c && Same(s, b, Skip(s, a) + 1) && (tok.c == '>' ==> At(s, Skip(s, a) + 1) != '>')
    ensures tok.Append? ==> At(s, Skip(s, a)) == '>' == At(s, Skip(s, a) + 1) && Same(s, b, Skip(s, a) + 2)
  {
    match tok
    case End => SkipOver(s, a, b);
    case Sym(c) => SymbolUnique(s, c, a, b);
    case Append => AppendUnique(s, a, b);
    case Str => StringStarts(s, w, a, b);
  }

  /** The same for a token that starts at once. */
  lemma TokenFrom(s: Line, tok: Token, w: Span, a: nat, b: nat)
    requires TokenIs(s, tok, w, a, b) && a <= |s| && b <= |s| && !Blank(At(s, a)) && !Blank(At(s, b))
    ensures (tok.Str? <==> WordChar(At(s, a))) && (tok.End? <==> At(s, a) == '\0')
    ensures tok.Sym? ==> At(s, a) == tok.c && Same(s, b, a + 1) && b == Skip(s, a + 1)
    ensures At(s, a) in {'<', '>'} ==>
            FileFrom(s, a) <= |s| && b == Skip(s, FileFrom(s, a)) && (tok == Sym('<') <==> s[a] == '<')
  {
    SkipStays(s, a);
    SkipStays(s, b);
    TokenUnique(s, tok, w, a, b);
  }

  lemma NothingFound(s: Line, a: nat, cmd: Cmd, e: nat)
    requires Nothing(s, a)
    ensures Finds(s, ExecLevel, a, false, cmd, e)
  {
  }

  /** parseexec in the middle of a simple command: some words, and all redirections up to here. */
  ghost predicate InWords(s: Line, argv: seq<Span>, rs: seq<Part>, a: nat, e: nat) {
    Args(s, argv, rs, a, e) && |argv| < MAXARGS && RedirsDone(s, e) && !Blank(At(s, e))
  }

  lemma BackReads(s: Line, cmd: Cmd, a: nat, m: nat, b: nat)
    requires a <= m < b && Reads(s, BackLevel, cmd, a, m) && SymbolAt(s, '&', m, b)
    ensures Reads(s, BackLevel, Back(cmd), a, b)
  {
    assert Reads(s, BackLevel, Back(cmd).cmd, a, m);
  }

  /** parseline after k ampersands, with the pipe `first` up to p. */
  ghost predicate InBacks(s: Line, first: Cmd, p: nat, k: nat, cmd: Cmd, a: nat, e: nat) {
    p <= |s| && cmd == Backs(first, k) && e == Amps(s, p, k) && AllAmps(s, p, k) && Reads(s, BackLevel, cmd, a, e)
  }

  lemma InBacksNext(s: Line, first: Cmd, p: nat, k: nat, cmd: Cmd, a: nat, m: nat, b: nat)
    requires InBacks(s, first, p, k, cmd, a, m) && SymbolAt(s, '&', m, b) && At(s, m) == '&' && b == Skip(s, m + 1)
    ensures InBacks(s, first, p, k + 1, Back(cmd), a, b)
  {
    BackReads(s, cmd, a, m, b);
    SkipStays(s, b);
    AmpNext(s, p, k, b);
  }

  lemma InBacksEnds(s: Line, first: Cmd, p: nat, k: nat, cmd: Cmd, a: nat, e: nat)
    requires InBacks(s, first, p, k, cmd, a, e) && At(s, e) != '&' && Finds(s, PipeLevel, a, true, first, p)
    ensures Reads(s, BackLevel, cmd, a, e) && Finds(s, BackLevel, a, true, cmd, e)
  {
    BackFound(s, a, true, first, p, k);
  }
}
