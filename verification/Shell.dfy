/** A reader and runner for the part of the shell command language (POSIX.1-2017, Shell Command
    Language volume) that the repository's printers use. The reader covers sections 2.2.2 (single
    quotes), 2.2.3 (double quotes), 2.3 (tokens, comments) and, of 2.6.3, the substitution
    "$(cat file)". It answers None on text whose meaning lies outside this part. */
module Shell {
  import opened Common

  /** What a word is made of: a character that stands for itself, or the text of a file. */
  datatype Piece = Lit(c: char) | CatOf(path: string)

  type Word = seq<Piece>

  type Command = seq<Word>

  // ----- Characters, section 2.2 -----

  predicate IsBlank(c: char) {
    c == ' ' || c == '\t'
  }

  predicate EndsCommand(c: char) {
    c == ';' || c == '\n'
  }

  predicate EndsWord(c: char) {
    IsBlank(c) || EndsCommand(c)
  }

  /** Characters with a meaning of their own that this reader does not interpret. */
  predicate IsActive(c: char) {
    || c == '|' || c == '&' || c == '<' || c == '>' || c == '(' || c == ')'
    || c == '$' || c == '`' || c == '\\' || c == '*' || c == '?' || c == '['
  }

  predicate IsPlain(c: char) {
    !EndsWord(c) && !IsActive(c) && c != '\'' && c != '"'
  }

  predicate AllPlain(s: string) {
    forall c :: c in s ==> IsPlain(c)
  }

  /** At the start of a word, '#' opens a comment and '~' a home directory. */
  predicate StartsWord(c: char) {
    !EndsWord(c) && c != '#' && c != '~'
  }

  /** A word that may be printed without quotes. */
  predicate PlainWord(s: string) {
    s != "" && StartsWord(s[0]) && AllPlain(s)
  }

  predicate WordStops(rest: string) {
    rest == "" || EndsWord(rest[0])
  }

  predicate CommandStops(rest: string) {
    rest == "" || EndsCommand(rest[0])
  }

  // ----- Reading words -----

  datatype Mode = Bare | Single | Double

  function Push(p: Piece, r: Option<(Word, string)>): Option<(Word, string)> {
    match r
    case Some((w, rest)) => Some(([p] + w, rest))
    case None => None
  }

  /** The word that continues at s in the given quoting mode, and the text after it. */
  function ReadWord(mode: Mode, s: string): (r: Option<(Word, string)>)
    ensures r.Some? ==> WordStops(r.value.1) && |r.value.1| <= |s|
    ensures r.Some? && s != "" && (mode != Bare || !EndsWord(s[0])) ==> |r.value.1| < |s|
    decreases |s|
  {
    match mode
    case Bare =>
      if WordStops(s) then Some(([], s))
      else if s[0] == '\'' then ReadWord(Single, s[1..])
      else if s[0] == '"' then ReadWord(Double, s[1..])
      else if IsActive(s[0]) then None
      else Push(Lit(s[0]), ReadWord(Bare, s[1..]))
    case Single =>
      if s == "" then None
      else if s[0] == '\'' then ReadWord(Bare, s[1..])
      else Push(Lit(s[0]), ReadWord(Single, s[1..]))
    case Double =>
      if s == "" then None
      else if s[0] == '"' then ReadWord(Bare, s[1..])
      else if s[0] == '$' then
        match ReadCat(s)
        case Some((path, rest)) => Push(CatOf(path), ReadWord(Double, rest))
        case None => None
      else if s[0] == '`' || s[0] == '\\' then None
      else Push(Lit(s[0]), ReadWord(Double, s[1..]))
  }

  const CAT := "$(cat "

  /** The substitution "$(cat path)" with an unquoted path. */
  function ReadCat(s: string): (r: Option<(string, string)>)
    ensures r.Some? ==> |r.value.1| < |s|
  {
    if CAT <= s then
      var (path, rest) := SpanPlain(s[|CAT|..]);
      if PlainWord(path) && rest != "" && rest[0] == ')' then Some((path, rest[1..])) else None
    else None
  }

  /** The longest plain beginning of s, and what follows it. */
  function SpanPlain(s: string): (r: (string, string))
    ensures |r.1| <= |s|
  {
    if s == "" || !IsPlain(s[0]) then ("", s)
    else
      var (path, rest) := SpanPlain(s[1..]);
      ([s[0]] + path, rest)
  }

  // ----- Reading commands -----

  /** The words up to the end of the command, and the text from the terminator on. */
  function ReadCommand(s: string): (r: Option<(Command, string)>)
    ensures r.Some? ==> CommandStops(r.value.1) && |r.value.1| <= |s|
    decreases |s|
  {
    if CommandStops(s) then Some(([], s))
    else if IsBlank(s[0]) then ReadCommand(s[1..])
    else if s[0] == '#' then Some(([], SkipLine(s)))
    else if s[0] == '~' then None
    else
      match ReadWord(Bare, s)
      case None => None
      case Some((w, rest)) =>
        match ReadCommand(rest)
        case None => None
        case Some((ws, rest')) => Some(([w] + ws, rest'))
  }

  function SkipLine(s: string): (r: string)
    ensures CommandStops(r) && |r| <= |s|
  {
    if s == "" || s[0] == '\n' then s else SkipLine(s[1..])
  }

  /** All commands of a script; an empty command before ';' is a syntax error. */
  function ReadScript(s: string): Option<seq<Command>>
    decreases |s|
  {
    match ReadCommand(s)
    case None => None
    case Some((ws, rest)) =>
      if rest == "" then Some(if ws == [] then [] else [ws])
      else if ws == [] && rest[0] == ';' then None
      else
        match ReadScript(rest[1..])
        case None => None
        case Some(cmds) => Some(if ws == [] then cmds else [ws] + cmds)
  }

  // ----- Running -----

  /** The contents of the files a process can see, by path. */
  type Files = map<string, string>

  type Env = map<string, string>

  /** Command substitution removes the line ends at the end of the output. */
  function Trimmed(s: string): string {
    if s != "" && s[|s| - 1] == '\n' then Trimmed(s[..|s| - 1]) else s
  }

  /** What an image brings along for a shell: the directories that hold a cat (the empty name stands for the
      working directory), where commands are searched for without a PATH, and whether the shell passes on
      variables whose names it cannot use itself. The shells dash and busybox drop these; the standard
      leaves it open. */
  datatype Userland = Userland(cats: set<string>, path: string, oddNames: bool)

  /** Where a script runs: the files it sees, and the userland. */
  datatype Machine = Machine(files: Files, user: Userland)

  const PATH := "PATH"

  /** The directories of a search path, which colons separate. */
  function Directories(path: string): (ds: seq<string>)
    ensures ds != []
  {
    if path == "" then [""]
    else
      var rest := Directories(path[1..]);
      if path[0] == ':' then [""] + rest else [[path[0]] + rest[0]] + rest[1..]
  }

  function SearchPath(env: Env, user: Userland): string {
    if PATH in env then env[PATH] else user.path
  }

  predicate HasCat(path: string, user: Userland) {
    exists d :: d in Directories(path) && d in user.cats
  }

  /** What `$(cat file)` yields: nothing, if the search path in force leads to no cat. */
  function CatText(file: string, m: Machine, env: Env): string {
    if HasCat(SearchPath(env, m.user), m.user) && file in m.files then Trimmed(m.files[file]) else ""
  }

  function Expand(w: Word, m: Machine, env: Env): string {
    if w == [] then ""
    else
      (match w[0]
       case Lit(c) => [c]
       case CatOf(path) => CatText(path, m, env))
      + Expand(w[1..], m, env)
  }

  function ExpandAll(ws: Command, m: Machine, env: Env): (r: seq<string>)
    ensures |r| == |ws|
    ensures forall i :: 0 <= i < |ws| ==> r[i] == Expand(ws[i], m, env)
  {
    seq(|ws|, i requires 0 <= i < |ws| => Expand(ws[i], m, env))
  }

  predicate IsLetter(c: char) {
    'a' <= c <= 'z' || 'A' <= c <= 'Z' || c == '_'
  }

  predicate IsDigit(c: char) {
    '0' <= c <= '9'
  }

  /** A name in the sense of the standard: what an environment variable may be called. */
  predicate IsName(s: string) {
    s != "" && IsLetter(s[0]) && forall c :: c in s ==> IsLetter(c) || IsDigit(c)
  }

  function SplitAssignment(s: string): Option<(string, string)> {
    if s == "" then None
    else if s[0] == '=' then Some(("", s[1..]))
    else
      match SplitAssignment(s[1..])
      case Some((n, v)) => Some(([s[0]] + n, v))
      case None => None
  }

  /** `export NAME=value`. */
  function RunExport(words: seq<string>, env: Env): Option<Env> {
    if |words| == 2 && words[0] == "export" then
      match SplitAssignment(words[1])
      case Some((n, v)) => if IsName(n) then Some(env[n := v]) else None
      case None => None
    else None
  }

  /** A sourced file of export commands. */
  function RunExports(cmds: seq<Command>, m: Machine, env: Env): Option<Env> {
    if cmds == [] then Some(env)
    else
      match RunExport(ExpandAll(cmds[0], m, env), env)
      case Some(env') => RunExports(cmds[1..], m, env')
      case None => None
  }

  /** `. path`: a path without a slash would be searched for, and a missing file ends the shell. */
  function RunDot(path: string, m: Machine, env: Env): Option<Env> {
    if '/' in path && path in m.files then
      match ReadScript(m.files[path])
      case Some(cmds) => RunExports(cmds, m, env)
      case None => None
    else None
  }

  /** The program a script ends in, and the environment that program gets. */
  datatype Process = Process(argv: seq<string>, env: Env)

  /** Scripts of `set`, `.` and `exec`. Every variable in play is exported, so the
      all-export flag that `set` switches does not change the environment. */
  function RunCommands(cmds: seq<Command>, m: Machine, env: Env): Option<Process> {
    if cmds == [] then None
    else
      var words := ExpandAll(cmds[0], m, env);
      if words == ["set", "-a"] || words == ["set", "+a"] then RunCommands(cmds[1..], m, env)
      else if |words| == 2 && words[0] == "." then
        match RunDot(words[1], m, env)
        case Some(env') => RunCommands(cmds[1..], m, env')
        case None => None
      else if |words| > 1 && words[0] == "exec" then Some(Process(words[1..], env))
      else None
  }

  /** The variables a shell takes over when it starts. */
  function StartEnv(env: Env, user: Userland): Env {
    if user.oddNames then env else map n | n in env && IsName(n) :: env[n]
  }

  function RunScript(s: string, m: Machine, env: Env): Option<Process> {
    match ReadScript(s)
    case Some(cmds) => RunCommands(cmds, m, StartEnv(env, m.user))
    case None => None
  }

  // ----- Words that stand for themselves -----

  function Lits(s: string): (w: Word)
    ensures |w| == |s|
    ensures forall i :: 0 <= i < |s| ==> w[i] == Lit(s[i])
  {
    seq(|s|, i requires 0 <= i < |s| => Lit(s[i]))
  }

  function LitWords(ss: seq<string>): (ws: Command)
    ensures |ws| == |ss|
    ensures forall i :: 0 <= i < |ss| ==> ws[i] == Lits(ss[i])
  {
    seq(|ss|, i requires 0 <= i < |ss| => Lits(ss[i]))
  }

  lemma {:induction false} ExpandLits(s: string, w: Word, m: Machine, env: Env)
    ensures Expand(Lits(s) + w, m, env) == s + Expand(w, m, env)
    decreases |s|
  {
    if s == "" {
      assert Lits(s) + w == w;
    } else {
      ExpandLits(s[1..], w, m, env);
      assert (Lits(s) + w)[1..] == Lits(s[1..]) + w;
      assert [s[0]] + (s[1..] + Expand(w, m, env)) == s + Expand(w, m, env);
    }
  }

  lemma ExpandLitWords(ss: seq<string>, m: Machine, env: Env)
    ensures ExpandAll(LitWords(ss), m, env) == ss
  {
    forall i | 0 <= i < |ss|
      ensures Expand(LitWords(ss)[i], m, env) == ss[i]
    {
      ExpandLits(ss[i], [], m, env);
      assert Lits(ss[i]) + [] == Lits(ss[i]);
    }
  }

  // ----- Facts about the reader that every printer needs -----

  function Prepend(w: Word, r: Option<(Word, string)>): Option<(Word, string)> {
    match r
    case Some((w', rest)) => Some((w + w', rest))
    case None => None
  }

  lemma PrependPush(p: Piece, w: Word, r: Option<(Word, string)>)
    ensures Push(p, Prepend(w, r)) == Prepend([p] + w, r)
  {
    if r.Some? {
      assert [p] + (w + r.value.0) == [p] + w + r.value.0;
    }
  }

  /** Plain text is read as itself. */
  lemma {:induction false} ReadPlain(p: string, rest: string)
    requires AllPlain(p)
    ensures ReadWord(Bare, p + rest) == Prepend(Lits(p), ReadWord(Bare, rest))
    decreases |p|
  {
    if p == "" {
      assert p + rest == rest;
      PrependNothing(ReadWord(Bare, rest));
    } else {
      ReadPlain(p[1..], rest);
      assert (p + rest)[1..] == p[1..] + rest;
      assert IsPlain(p[0]);
      PrependPush(Lit(p[0]), Lits(p[1..]), ReadWord(Bare, rest));
      assert [Lit(p[0])] + Lits(p[1..]) == Lits(p);
    }
  }

  lemma PrependNothing(r: Option<(Word, string)>)
    ensures Prepend(Lits(""), r) == r
  {
    if r.Some? {
      assert Lits("") + r.value.0 == r.value.0;
    }
  }

  function Before(w: Word, r: Option<(Command, string)>): Option<(Command, string)> {
    match r
    case Some((ws, rest)) => Some(([w] + ws, rest))
    case None => None
  }

  /** A command continues after a word that ends where the text says so. */
  lemma WordThen(t: string, w: Word, rest: string)
    requires t != "" && StartsWord(t[0]) && ReadWord(Bare, t) == Some((w, rest))
    ensures ReadCommand(t) == Before(w, ReadCommand(rest))
  {
  }

  lemma PlainThen(p: string, rest: string)
    requires PlainWord(p) && WordStops(rest)
    ensures ReadCommand(p + rest) == Before(Lits(p), ReadCommand(rest))
  {
    ReadPlain(p, rest);
    assert ReadWord(Bare, rest) == Some(([], rest));
    assert Lits(p) + [] == Lits(p);
    assert (p + rest)[0] == p[0];
    WordThen(p + rest, Lits(p), rest);
  }

  lemma SkipBlank(rest: string)
    ensures ReadCommand(" " + rest) == ReadCommand(rest)
  {
    assert (" " + rest)[1..] == rest;
  }

  lemma SkipBlankScript(rest: string)
    ensures ReadScript(" " + rest) == ReadScript(rest)
  {
    SkipBlank(rest);
  }

  lemma ScriptStep(t: string, ws: Command, rest: string)
    requires ReadCommand(t) == Some((ws, rest)) && ws != [] && rest != ""
    ensures ReadScript(t) == match ReadScript(rest[1..])
                             case Some(cmds) => Some([ws] + cmds)
                             case None => None
  {
  }

  // ----- When an unquoted text is read back as itself -----

  /** Reading never produces more pieces than it consumes characters, and quotes cost characters. */
  lemma {:induction false} ReadShrinks(mode: Mode, s: string)
    requires ReadWord(mode, s).Some?
    ensures var (w, rest) := ReadWord(mode, s).value;
            && |w| + |rest| <= |s|
            && (mode != Bare ==> |w| + |rest| < |s|)
            && (|w| + |rest| == |s| ==> AllPlain(s[..|w|]))
    decreases |s|
  {
    if mode == Bare {
      if !WordStops(s) {
        if s[0] == '\'' {
          ReadShrinks(Single, s[1..]);
        } else if s[0] == '"' {
          ReadShrinks(Double, s[1..]);
        } else {
          ReadShrinks(Bare, s[1..]);
          var (w, rest) := ReadWord(Bare, s[1..]).value;
          if |w| + |rest| == |s| - 1 {
            assert s[..|w| + 1] == [s[0]] + s[1..][..|w|];
          }
        }
      }
    } else if mode == Single {
      ReadShrinks(if s[0] == '\'' then Bare else Single, s[1..]);
    } else if s[0] == '"' {
      ReadShrinks(Bare, s[1..]);
    } else if s[0] == '$' {
      ReadShrinks(Double, ReadCat(s).value.1);
    } else {
      ReadShrinks(Double, s[1..]);
    }
  }

  /** A text spliced into a script without quotes, with a terminator after it, is read as one word
      equal to itself exactly if it is a plain word. */
  lemma UnquotedIff(p: string, rest: string)
    requires rest != "" && EndsCommand(rest[0])
    ensures ReadCommand(p + rest) == Some(([Lits(p)], rest)) <==> PlainWord(p)
  {
    if PlainWord(p) {
      PlainThen(p, rest);
      assert [Lits(p)] + [] == [Lits(p)];
    } else if ReadCommand(p + rest) == Some(([Lits(p)], rest)) {
      NotReadBack(p, rest);
    }
  }

  lemma NotReadBack(p: string, rest: string)
    requires rest != "" && EndsCommand(rest[0])
    requires ReadCommand(p + rest) == Some(([Lits(p)], rest))
    ensures PlainWord(p)
  {
    var t := p + rest;
    if p == "" {
      NothingRead(rest);
    } else if IsBlank(p[0]) {
      BlankLost(p, rest);
    } else {
      assert t[0] == p[0];
      var (w, rest') := ReadWord(Bare, t).value;
      var ws := ReadCommand(rest').value.0;
      assert [w] + ws == [Lits(p)];
      assert w == ([w] + ws)[0];
      ReadShrinks(Bare, t);
      assert t[..|p|] == p;
    }
  }

  lemma NothingRead(rest: string)
    requires CommandStops(rest)
    ensures ReadCommand("" + rest) == Some(([], rest))
  {
    assert "" + rest == rest;
  }

  /** Every word of a command takes at least as many characters as it has pieces. */
  lemma {:induction false} CommandShrinks(s: string)
    requires ReadCommand(s).Some? && ReadCommand(s).value.0 != []
    ensures var (ws, rest) := ReadCommand(s).value;
            && |ws[0]| + |rest| <= |s|
            && (|s| > 0 && IsBlank(s[0]) ==> |ws[0]| + |rest| < |s|)
    decreases |s|
  {
    if IsBlank(s[0]) {
      CommandShrinks(s[1..]);
    } else {
      ReadShrinks(Bare, s);
    }
  }

  lemma BlankLost(p: string, rest: string)
    requires p != "" && IsBlank(p[0])
    requires ReadCommand(p + rest).Some?
    ensures ReadCommand(p + rest) != Some(([Lits(p)], rest))
  {
    if ReadCommand(p + rest) == Some(([Lits(p)], rest)) {
      CommandShrinks(p + rest);
    }
  }
}
