/** sh.c: the recursive-descent parser and nulterminate. */
module Sh {
  import opened Grammar

  class Parser {
    const line: Line
    var ps: nat

    constructor (line: Line)
      ensures this.line == line && ps == 0
    {
      this.line := line;
      ps := 0;
    }

    /** The loops that skip blanks. */
    method SkipBlanks(s: nat) returns (t: nat)
      requires s <= |line|
      ensures s <= t <= |line| && (forall i :: s <= i < t ==> Blank(line[i])) && !Blank(At(line, t))
    {
      t := s;
      while t < |line| && Blank(line[t])
        invariant s <= t <= |line| && forall i :: s <= i < t ==> Blank(line[i])
      {
        t := t + 1;
      }
    }

    /** gettoken: the next symbol or word, with the blanks around it. */
    method GetToken() returns (tok: Token, w: Span)
      requires Boundary(line, ps)
      modifies `ps
      ensures old(ps) <= ps <= |line| && Boundary(line, ps) && !Blank(At(line, ps)) && (tok.End? || old(ps) < ps)
      ensures TokenIs(line, tok, w, old(ps), ps)
      ensures At(line, old(ps)) in {'|', '(', ')', ';', '&', '<'} ==> tok == Sym(At(line, old(ps)))
    {
      var s := SkipBlanks(ps);
      var q := s;
      if At(line, s) == '\0' {
        tok := End;
      } else if line[s] in {'|', '(', ')', ';', '&', '<'} {
        tok := Sym(line[s]);
        s := s + 1;
      } else if line[s] == '>' {
        tok := Sym('>');
        s := s + 1;
        if At(line, s) == '>' {
          tok := Append;
          s := s + 1;
        }
      } else {
        tok := Str;
        while s < |line| && !Blank(line[s]) && !Symbol(line[s])
          invariant q <= s <= |line| && forall i :: q <= i < s ==> WordChar(line[i])
        {
          s := s + 1;
        }
      }
      w := Span(q, s);
      s := SkipBlanks(s);
      assert tok.Sym? ==> SymbolIs(line, tok.c, ps, q, s);
      assert tok.Append? ==> AppendIs(line, ps, q, s);
      ps := s;
    }

    /** peek. */
    method Peek(toks: set<char>) returns (r: bool)
      requires Boundary(line, ps) && '\0' !in toks
      modifies `ps
      ensures Blanks(line, old(ps), ps) && Boundary(line, ps) && !Blank(At(line, ps)) && (r <==> At(line, ps) in toks)
      ensures !Blank(At(line, old(ps))) ==> ps == old(ps)
    {
      var s := SkipBlanks(ps);
      ps := s;
      r := At(line, s) != '\0' && At(line, s) in toks;
    }

    /** One redirection, at its symbol. Not ok is a panic: the file name is missing. */
    method ParseRedir() returns (ok: bool, r: Part)
      requires Boundary(line, ps) && At(line, ps) in {'<', '>'}
      modifies `ps
      ensures old(ps) <= ps <= |line| && Boundary(line, ps)
      ensures ok ==> RedirAt(line, r, old(ps), ps) && !Blank(At(line, ps)) && old(ps) < ps
      ensures !ok ==> FileFrom(line, old(ps)) <= |line| && !WordChar(At(line, Skip(line, FileFrom(line, old(ps)))))
    {
      ghost var b := ps;
      var tok, v := GetToken();
      ghost var m := ps;
      TokenFrom(line, tok, v, b, m);
      var str, w := GetToken();
      TokenFrom(line, str, w, m, ps);
      r := if tok == Sym('<') then Part(w, Read, 0) else Part(w, Write, 1);
      ok := str.Str?;
      assert ok ==> RedirIs(line, r, b, m, ps);
    }

    /** parseredirs. Not ok is a panic. The stretch may begin with blanks that were skipped already. */
    method ParseRedirs(ghost a: nat) returns (ok: bool, rs: seq<Part>)
      requires Boundary(line, ps) && Blanks(line, a, ps)
      modifies `ps
      ensures old(ps) <= ps <= |line| && Boundary(line, ps)
      ensures ok ==> Redirs(line, rs, a, ps) && !Blank(At(line, ps)) && RedirsDone(line, ps)
      ensures RedirsFind(line, a, ok, rs, ps)
    {
      rs := [];
      var more := Peek({'<', '>'});
      while more
        invariant old(ps) <= ps <= |line| && Boundary(line, ps) && Redirs(line, rs, a, ps) && !Blank(At(line, ps))
        invariant more <==> At(line, ps) in {'<', '>'}
        decreases |line| - ps, if more then 1 else 0
      {
        ghost var b := ps;
        var r;
        ok, r := ParseRedir();
        if !ok {
          RedirsBroken(line, rs, a, b, rs, ps);
          return;
        }
        RedirsGrow(line, rs, r, a, b, ps);
        rs := rs + [r];
        more := Peek({'<', '>'});
      }
      SkipStays(line, ps);
      RedirsFound(line, rs, a, ps);
      ok := true;
    }

    /** The loop of parseline: ampersands after the command found from a on. */
    method ParseBacks(first: Cmd, ghost a: nat) returns (cmd: Cmd)
      requires Boundary(line, ps) && Reads(line, PipeLevel, first, a, ps) && !Blank(At(line, ps)) &&
               Finds(line, PipeLevel, a, true, first, ps)
      modifies `ps
      ensures old(ps) <= ps <= |line| && Boundary(line, ps)
      ensures Reads(line, BackLevel, cmd, a, ps) && !Blank(At(line, ps)) && Finds(line, BackLevel, a, true, cmd, ps)
    {
      cmd := first;
      ghost var p, k := ps, 0;
      var back := Peek({'&'});
      while back
        invariant p <= ps <= |line| && Boundary(line, ps) && !Blank(At(line, ps)) &&
                  InBacks(line, first, p, k, cmd, a, ps)
        invariant back <==> At(line, ps) == '&'
        decreases |line| - ps, if back then 1 else 0
      {
        ghost var m := ps;
        var tok, w := GetToken();
        TokenFrom(line, tok, w, m, ps);
        InBacksNext(line, first, p, k, cmd, a, m, ps);
        cmd, k := Back(cmd), k + 1;
        back := Peek({'&'});
      }
      InBacksEnds(line, first, p, k, cmd, a, ps);
    }

    /** parseline. */
    method ParseLine() returns (ok: bool, cmd: Cmd)
      requires Boundary(line, ps)
      modifies `ps
      ensures old(ps) <= ps <= |line| && Boundary(line, ps)
      ensures ok ==> Reads(line, LineLevel, cmd, old(ps), ps) && !Blank(At(line, ps))
      ensures Finds(line, LineLevel, old(ps), ok, cmd, ps)
      decreases |line| - ps, 3
    {
      ghost var a := ps;
      ok, cmd := ParsePipe();
      if !ok {
        BackFound(line, a, ok, cmd, ps, 0);
        ListFound(line, a, ok, cmd, ps, ps, ok, cmd, ps);
        return;
      }
      cmd := ParseBacks(cmd, a);
      ghost var m := ps;
      var more := Peek({';'});
      if more {
        var tok, w := GetToken();
        ghost var n := ps;
        TokenFrom(line, tok, w, m, n);
        var rest;
        ok, rest := ParseLine();
        ListFound(line, a, true, cmd, m, n, ok, rest, ps);
        if ok {
          ListReads(line, cmd, rest, a, m, n, ps);
        }
        cmd := List(cmd, rest);
      } else {
        ListFound(line, a, true, cmd, m, m, ok, cmd, m);
      }
    }

    /** parsepipe. */
    method ParsePipe() returns (ok: bool, cmd: Cmd)
      requires Boundary(line, ps)
      modifies `ps
      ensures old(ps) <= ps <= |line| && Boundary(line, ps)
      ensures ok ==> Reads(line, PipeLevel, cmd, old(ps), ps) && !Blank(At(line, ps))
      ensures Finds(line, PipeLevel, old(ps), ok, cmd, ps)
      decreases |line| - ps, 2
    {
      ghost var a := ps;
      ok, cmd := ParseExec();
      ghost var m := ps;
      if !ok {
        PipeFound(line, a, ok, cmd, m, m, ok, cmd, m);
        return;
      }
      var more := Peek({'|'});
      if more {
        var tok, w := GetToken();
        ghost var n := ps;
        TokenFrom(line, tok, w, m, n);
        var rest;
        ok, rest := ParsePipe();
        PipeFound(line, a, true, cmd, m, n, ok, rest, ps);
        if ok {
          PipeReads(line, cmd, rest, a, m, n, ps);
        }
        cmd := Pipe(cmd, rest);
      } else {
        PipeFound(line, a, true, cmd, m, m, ok, cmd, m);
      }
    }

    /** parseblock, called at an open parenthesis, after blanks from a on. */
    method ParseBlock(ghost a: nat) returns (ok: bool, cmd: Cmd)
      requires Boundary(line, ps) && Blanks(line, a, ps) && At(line, ps) == '('
      modifies `ps
      ensures old(ps) <= ps <= |line| && Boundary(line, ps)
      ensures ok ==> Reads(line, ExecLevel, cmd, a, ps) && !Blank(At(line, ps))
      ensures Finds(line, ExecLevel, a, ok, cmd, ps)
      decreases |line| - ps, 0
    {
      var open := Peek({'('});
      assert open;
      ghost var m0 := ps;
      var tok, w := GetToken();
      ghost var m := ps;
      TokenFrom(line, tok, w, m0, m);
      SymbolLead(line, '(', a, m0, m);
      SkipOver(line, a, m0);
      SkipStays(line, m0);
      ok, cmd := ParseLine();
      ghost var n := ps;
      if !ok {
        BlockFound(line, a, m, ok, cmd, n, n, ok, [], n);
        return;
      }
      ok, cmd := CloseBlock(cmd, a, m);
    }

    /** The rest of parseblock, after the line inside. */
    method CloseBlock(inner: Cmd, ghost a: nat, ghost m: nat) returns (ok: bool, cmd: Cmd)
      requires Boundary(line, ps) && !Blank(At(line, ps)) && a < m <= ps && SymbolAt(line, '(', a, m) &&
               Reads(line, LineLevel, inner, m, ps)
      requires At(line, Skip(line, a)) == '(' && Same(line, m, Skip(line, a) + 1) &&
               Finds(line, LineLevel, m, true, inner, ps)
      modifies `ps
      ensures old(ps) <= ps <= |line| && Boundary(line, ps)
      ensures ok ==> Reads(line, ExecLevel, cmd, a, ps) && !Blank(At(line, ps))
      ensures Finds(line, ExecLevel, a, ok, cmd, ps)
    {
      ghost var n := ps;
      var close := Peek({')'});
      if !close {
        BlockFound(line, a, m, true, inner, n, n, false, [], n);
        return false, inner;
      }
      var tok, w := GetToken();
      ghost var e := ps;
      TokenFrom(line, tok, w, n, e);
      var rs;
      ok, rs := ParseRedirs(e);
      BlockFound(line, a, m, true, inner, n, e, ok, rs, ps);
      if ok {
        BlockReads(line, inner, rs, a, m, n, e, ps);
      }
      cmd := Wrap(inner, rs);
    }

    /** parseexec. */
    method ParseExec() returns (ok: bool, cmd: Cmd)
      requires Boundary(line, ps)
      modifies `ps
      ensures old(ps) <= ps <= |line| && Boundary(line, ps)
      ensures ok ==> Reads(line, ExecLevel, cmd, old(ps), ps) && !Blank(At(line, ps))
      ensures Finds(line, ExecLevel, old(ps), ok, cmd, ps)
      decreases |line| - ps, 1
    {
      ghost var a := ps;
      var block := Peek({'('});
      SkipOver(line, a, ps);
      SkipStays(line, ps);
      if block {
        ok, cmd := ParseBlock(a);
      } else {
        ok, cmd := ParsePlain(a);
      }
    }

    /** The part of parseexec for words and redirections, after blanks from a on. */
    method ParsePlain(ghost a: nat) returns (ok: bool, cmd: Cmd)
      requires Boundary(line, ps) && Blanks(line, a, ps) && At(line, Skip(line, a)) != '('
      modifies `ps
      ensures old(ps) <= ps <= |line| && Boundary(line, ps)
      ensures ok ==> Reads(line, ExecLevel, cmd, a, ps) && !Blank(At(line, ps))
      ensures Finds(line, ExecLevel, a, ok, cmd, ps)
    {
      cmd := Exec([]);
      var argv: seq<Span>, rs := [], [];
      ok, rs := ParseRedirs(a);
      if !ok {
        PlainBrokenFirst(line, a, rs, ps);
        NothingFound(line, a, cmd, ps);
        return;
      }
      var stop := Peek({'|', ')', '&', ';'});
      while !stop
        invariant old(ps) <= ps <= |line| && Boundary(line, ps) && InWords(line, argv, rs, a, ps)
        invariant stop <==> At(line, ps) in {'|', ')', '&', ';'}
        decreases |line| - ps, if stop then 0 else 1
      {
        var end;
        ok, end, argv, rs := ParseArg(argv, rs, a);
        if !ok {
          NothingFound(line, a, cmd, ps);
          return;
        }
        if end {
          break;
        }
        stop := Peek({'|', ')', '&', ';'});
      }
      SkipStays(line, ps);
      PlainFound(line, argv, rs, a, ps);
      ok, cmd := true, Wrap(Exec(argv), rs);
    }

    /** The body of parseexec's loop. Not ok is a panic: no word, too many, or a bad redirection after it. */
    method ParseArg(argv: seq<Span>, rs: seq<Part>, ghost a: nat)
        returns (ok: bool, end: bool, argv': seq<Span>, rs': seq<Part>)
      requires Boundary(line, ps) && InWords(line, argv, rs, a, ps) && At(line, Skip(line, a)) != '(' &&
               At(line, ps) !in {'|', ')', '&', ';'}
      modifies `ps
      ensures old(ps) <= ps <= |line| && Boundary(line, ps)
      ensures ok ==> InWords(line, argv', rs', a, ps) && if end then At(line, ps) == '\0' else old(ps) < ps
      ensures !ok ==> Nothing(line, a)
    {
      ok, end, argv', rs' := true, false, argv, rs;
      ghost var m := ps;
      SkipStays(line, m);
      var tok, w := GetToken();
      ghost var e := ps;
      TokenFrom(line, tok, w, m, e);
      if tok.End? {
        end := true;
        return;
      }
      if !tok.Str? {
        PlainStuck(line, argv, rs, a, m);
        ok := false;
        return;
      }
      if |argv| + 1 >= MAXARGS {
        PlainTooLong(line, argv, rs, a, m);
        ok := false;
        return;
      }
      var more;
      ok, more := ParseRedirs(e);
      if ok {
        ArgsGrow(line, argv, w, rs, more, a, m, e, ps);
        argv', rs' := argv + [w], rs + more;
      } else {
        PlainBroken(line, argv, rs, a, m, w, e, more, ps);
      }
    }
  }

  // nulterminate, on the buffer that holds the line and its NUL.

  function Ends(cmd: Cmd): set<nat> { set w | w in Spans(cmd) :: w.eq }

  predicate InBuffer(cmd: Cmd, n: nat) { forall w :: w in Spans(cmd) ==> w.eq < n }

  class Shell {
    var buf: seq<char>

    constructor (line: Line)
      ensures buf == line + ['\0']
    {
      buf := line + ['\0'];
    }

    /** nulterminate: a NUL at the end of every string of the command, and no other change. */
    method Nulterminate(cmd: Cmd)
      requires InBuffer(cmd, |buf|)
      modifies this
      ensures |buf| == |old(buf)| &&
              forall i :: 0 <= i < |buf| ==> buf[i] == if i in Ends(cmd) then '\0' else old(buf)[i]
      decreases cmd
    {
      match cmd
      case Exec(argv) =>
        for i := 0 to |argv|
          invariant |buf| == |old(buf)|
          invariant forall p :: 0 <= p < |buf| ==> buf[p] == if EndOf(argv[..i], p) then '\0' else old(buf)[p]
        {
          assert argv[i] in Spans(cmd);
          EndsGrow(argv, i);
          buf := buf[argv[i].eq := '\0'];
        }
        ExecEnds(argv);
      case Redir(c, file, _, _) =>
        assert file in Spans(cmd) && Ends(cmd) == Ends(c) + {file.eq};
        Nulterminate(c);
        buf := buf[file.eq := '\0'];
      case Pipe(l, r) =>
        assert Ends(cmd) == Ends(l) + Ends(r);
        Nulterminate(l);
        Nulterminate(r);
      case List(l, r) =>
        assert Ends(cmd) == Ends(l) + Ends(r);
        Nulterminate(l);
        Nulterminate(r);
      case Back(c) =>
        assert Ends(cmd) == Ends(c);
        Nulterminate(c);
    }

    /** parsecmd: the whole line reads as the command and as no other, and afterwards every string of the command
        is a C string equal to its word. A syntax panic (not ok) means that the line reads as no command. */
    method ParseCmd(line: Line) returns (ok: bool, cmd: Cmd)
      requires buf == line + ['\0']
      modifies this
      ensures ok ==> Reads(line, LineLevel, cmd, 0, |line|)
      ensures forall c :: Reads(line, LineLevel, c, 0, |line|) ==> ok && c == cmd
      ensures ok ==> forall w :: w in Spans(cmd) <==> Word(line, w)
      ensures ok ==> forall w :: w in Spans(cmd) ==> w.q <= w.eq <= |line| && IsCString(buf, w.q, line[w.q..w.eq])
    {
      var p := new Parser(line);
      ok, cmd := p.ParseLine();
      assert Stops(line, LineLevel, |line|) && Same(line, 0, 0);
      if !ok {
        return;
      }
      var _ := p.Peek({});
      if p.ps != |line| {
        return false, cmd;
      }
      ReadsCovers(line, LineLevel, cmd, 0, |line|);
      Nulterminate(cmd);
      Terminated(line, buf, cmd);
    }
  }

  predicate EndOf(argv: seq<Span>, p: nat) { exists k :: 0 <= k < |argv| && argv[k].eq == p }

  lemma EndsGrow(argv: seq<Span>, i: nat)
    requires i < |argv|
    ensures forall p: nat :: EndOf(argv[..i + 1], p) <==> EndOf(argv[..i], p) || p == argv[i].eq
  {
    var o := argv[..i + 1];
    assert o[i] == argv[i] && forall k :: 0 <= k < i ==> o[k] == argv[..i][k];
    forall p: nat | EndOf(argv[..i], p) || p == argv[i].eq ensures EndOf(o, p) {
      if p != argv[i].eq {
        var k :| 0 <= k < i && argv[..i][k].eq == p;
        assert o[k].eq == p;
      }
    }
  }

  lemma ExecEnds(argv: seq<Span>)
    ensures forall p: nat :: EndOf(argv[..|argv|], p) <==> p in Ends(Exec(argv))
  {
    assert argv[..|argv|] == argv;
    forall p: nat | p in Ends(Exec(argv)) ensures EndOf(argv, p) {
      var w :| w in argv && w.eq == p;
    }
    forall p: nat | EndOf(argv, p) ensures p in Ends(Exec(argv)) {
      var k :| 0 <= k < |argv| && argv[k].eq == p;
      assert argv[k] in Spans(Exec(argv));
    }
  }

  /** The characters from position q on, up to the first NUL, are s. */
  predicate IsCString(buf: seq<char>, q: nat, s: string) {
    q + |s| < |buf| && buf[q..q + |s|] == s && buf[q + |s|] == '\0' && '\0' !in s
  }

  /** No terminator lands inside a word, because a word ends where the word characters do. */
  lemma Terminated(line: Line, buf: seq<char>, cmd: Cmd)
    requires forall w :: w in Spans(cmd) ==> Word(line, w)
    requires |buf| == |line| + 1 &&
             forall i :: 0 <= i < |buf| ==> buf[i] == if i in Ends(cmd) then '\0' else (line + ['\0'])[i]
    ensures forall w :: w in Spans(cmd) ==> w.q <= w.eq <= |line| && IsCString(buf, w.q, line[w.q..w.eq])
  {
    forall i | i in Ends(cmd) ensures i == |line| || (i < |line| && !WordChar(line[i])) {
      var v :| v in Spans(cmd) && v.eq == i;
    }
    forall w | w in Spans(cmd) ensures w.q <= w.eq <= |line| && IsCString(buf, w.q, line[w.q..w.eq]) {
      assert Word(line, w) && w.eq in Ends(cmd);
      assert buf[w.q..w.eq] == line[w.q..w.eq];
    }
  }
}
