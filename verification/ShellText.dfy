/** The shell text the repository prints (pkg/webhook/mutate.go: shellQuote, shellJoin,
    wrapContainerForEnvLoader; pkg/inject/writer.go: WriteEnvLoader), and what a shell reads in it. */
module ShellText {
  import opened Common
  import opened Shell

  // ----- Quoting -----

  /** Each single quote becomes: close, a quote in double quotes, open again. */
  function Escape(v: string): string {
    if v == "" then ""
    else (if v[0] == '\'' then "'\"'\"'" else [v[0]]) + Escape(v[1..])
  }

  function Quote(v: string): string {
    "'" + (Escape(v) + "'")
  }

  function QuoteAll(parts: seq<string>): (q: seq<string>)
    ensures |q| == |parts|
    ensures forall i :: 0 <= i < |parts| ==> q[i] == Quote(parts[i])
  {
    seq(|parts|, i requires 0 <= i < |parts| => Quote(parts[i]))
  }

  function Join(parts: seq<string>, sep: string): string {
    if parts == [] then ""
    else if |parts| == 1 then parts[0]
    else parts[0] + (sep + Join(parts[1..], sep))
  }

  function ShellJoin(parts: seq<string>): string {
    Join(QuoteAll(parts), " ")
  }

  method JoinQuoted(parts: seq<string>) returns (text: string)
    ensures text == ShellJoin(parts)
  {
    if |parts| == 0 {
      return "";
    }
    var quoted := new string[|parts|];
    for i := 0 to |parts|
      invariant forall k :: 0 <= k < i ==> quoted[k] == Quote(parts[k])
    {
      quoted[i] := Quote(parts[i]);
    }
    assert quoted[..] == QuoteAll(parts);
    text := Join(quoted[..], " ");
  }

  /** Inside single quotes, escaped text is read as the original. */
  lemma {:induction false} ReadEscaped(v: string, rest: string)
    ensures ReadWord(Single, Escape(v) + ("'" + rest)) == Prepend(Lits(v), ReadWord(Bare, rest))
    decreases |v|
  {
    var close := "'" + rest;
    if v == "" {
      assert Escape(v) + close == close;
      assert close[1..] == rest;
      PrependNothing(ReadWord(Bare, rest));
    } else {
      var tail := Escape(v[1..]) + close;
      ReadEscaped(v[1..], rest);
      PrependPush(Lit(v[0]), Lits(v[1..]), ReadWord(Bare, rest));
      assert [Lit(v[0])] + Lits(v[1..]) == Lits(v);
      if v[0] == '\'' {
        ReadQuoteEscape(tail);
        assert Escape(v) + close == "'\"'\"'" + tail;
      } else {
        assert Escape(v) + close == [v[0]] + tail;
        assert ([v[0]] + tail)[1..] == tail;
      }
    }
  }

  lemma ReadQuoteEscape(tail: string)
    ensures ReadWord(Single, "'\"'\"'" + tail) == Push(Lit('\''), ReadWord(Single, tail))
  {
    var s4 := "'" + tail;
    var s3 := "\"" + s4;
    var s2 := "'" + s3;
    var s1 := "\"" + s2;
    var s0 := "'" + s1;
    assert s0[1..] == s1 && s1[1..] == s2 && s2[1..] == s3 && s3[1..] == s4 && s4[1..] == tail;
    assert ReadWord(Bare, s4) == ReadWord(Single, tail);
    assert ReadWord(Double, s3) == ReadWord(Bare, s4);
    assert ReadWord(Double, s2) == Push(Lit('\''), ReadWord(Double, s3));
    assert ReadWord(Bare, s1) == ReadWord(Double, s2);
    assert ReadWord(Single, s0) == ReadWord(Bare, s1);
    assert "'\"'\"'" + tail == s0;
  }

  lemma ReadQuoted(v: string, rest: string)
    requires WordStops(rest)
    ensures ReadCommand(Quote(v) + rest) == Before(Lits(v), ReadCommand(rest))
  {
    var t := Quote(v) + rest;
    assert t == "'" + (Escape(v) + ("'" + rest));
    assert t[1..] == Escape(v) + ("'" + rest);
    ReadEscaped(v, rest);
    assert ReadWord(Bare, rest) == Some(([], rest));
    assert Lits(v) + [] == Lits(v);
    WordThen(t, Lits(v), rest);
  }

  /** Splitting the joined text into words and removing the quotes gives back exactly the parts,
      whatever the parts are, and leaves the text after it alone. */
  lemma {:induction false} ShellJoinReads(parts: seq<string>, rest: string)
    requires CommandStops(rest)
    ensures ReadCommand(ShellJoin(parts) + rest) == Some((LitWords(parts), rest))
    decreases |parts|
  {
    if parts == [] {
      assert ShellJoin(parts) + rest == rest;
    } else if |parts| == 1 {
      ReadQuoted(parts[0], rest);
      assert [Lits(parts[0])] + [] == LitWords(parts);
    } else {
      hide ReadWord, Quote, Lits;
      var more := ShellJoin(parts[1..]) + rest;
      ShellJoinReads(parts[1..], rest);
      SkipBlank(more);
      ReadQuoted(parts[0], " " + more);
      assert QuoteAll(parts)[1..] == QuoteAll(parts[1..]);
      assert ShellJoin(parts) + rest == Quote(parts[0]) + (" " + more);
      assert [Lits(parts[0])] + LitWords(parts[1..]) == LitWords(parts);
    }
  }

  // ----- The wrapped entrypoint -----

  function Sources(loaders: seq<string>): string {
    if loaders == [] then "" else ". " + (loaders[0] + ("; " + Sources(loaders[1..])))
  }

  function WrapText(loaders: seq<string>, entrypoint: string): string {
    "set -a; " + (Sources(loaders) + ("set +a; exec " + entrypoint))
  }

  method SourceLoaders(loaders: seq<string>) returns (text: string)
    ensures text == Sources(loaders)
  {
    text := "";
    for i := 0 to |loaders|
      invariant text == Sources(loaders[..i])
    {
      text := text + ". " + loaders[i] + "; ";
      SourcesSnoc(loaders[..i], loaders[i]);
      assert loaders[..i + 1] == loaders[..i] + [loaders[i]];
    }
    assert loaders[..|loaders|] == loaders;
  }

  lemma {:induction false} SourcesSnoc(loaders: seq<string>, l: string)
    ensures Sources(loaders + [l]) == Sources(loaders) + ". " + l + "; "
    decreases |loaders|
  {
    if loaders == [] {
      assert loaders + [l] == [l];
      assert [l][1..] == [];
    } else {
      hide Sources;
      var tail := Sources(loaders[1..]);
      SourcesSnoc(loaders[1..], l);
      SourcesOnce(loaders);
      SourcesOnce(loaders + [l]);
      assert (loaders + [l])[1..] == loaders[1..] + [l];
      assert ". " + (loaders[0] + ("; " + tail)) + ". " + l + "; "
          == ". " + (loaders[0] + ("; " + (tail + ". " + l + "; ")));
    }
  }

  function DotCommands(loaders: seq<string>): (cmds: seq<Command>)
    ensures |cmds| == |loaders|
  {
    if loaders == [] then [] else [LitWords([".", loaders[0]])] + DotCommands(loaders[1..])
  }

  function WrapCommands(loaders: seq<string>, argv: seq<string>): seq<Command> {
    [LitWords(["set", "-a"])]
    + (DotCommands(loaders) + [LitWords(["set", "+a"]), LitWords(["exec"] + argv)])
  }

  lemma TwoWords(a: string, b: string, rest: string)
    requires PlainWord(a) && PlainWord(b) && CommandStops(rest)
    ensures ReadCommand(a + (" " + (b + rest))) == Some((LitWords([a, b]), rest))
  {
    PlainThen(b, rest);
    SkipBlank(b + rest);
    PlainThen(a, " " + (b + rest));
    assert [Lits(a)] + ([Lits(b)] + []) == LitWords([a, b]);
  }

  /** One command of two words, ended by ';', followed by more script. */
  lemma TwoWordsThen(a: string, b: string, more: string)
    requires PlainWord(a) && PlainWord(b)
    ensures ReadScript(a + (" " + (b + ("; " + more))))
         == match ReadScript(more)
            case Some(cmds) => Some([LitWords([a, b])] + cmds)
            case None => None
  {
    var rest := "; " + more;
    TwoWords(a, b, rest);
    ScriptStep(a + (" " + (b + rest)), LitWords([a, b]), rest);
    assert rest[1..] == " " + more;
    SkipBlankScript(more);
  }

  /** The command words the printers use. */
  lemma Keywords()
    ensures PlainWord(".") && PlainWord("set") && PlainWord("-a") && PlainWord("+a")
    ensures PlainWord("exec") && PlainWord("export")
  {
    LongKeywords();
  }

  lemma LongKeywords()
    ensures PlainWord("exec") && PlainWord("export")
  {
  }

  lemma ExecWords(argv: seq<string>)
    ensures ReadCommand("exec" + (" " + ShellJoin(argv))) == Some((LitWords(["exec"] + argv), ""))
  {
    var entry := ShellJoin(argv);
    ShellJoinReads(argv, "");
    assert entry + "" == entry;
    SkipBlank(entry);
    Keywords();
    PlainThen("exec", " " + entry);
    assert [Lits("exec")] + LitWords(argv) == LitWords(["exec"] + argv);
  }

  lemma LastCommand(t: string, ws: Command)
    requires ReadCommand(t) == Some((ws, "")) && ws != []
    ensures ReadScript(t) == Some([ws])
  {
  }

  lemma ExecReads(argv: seq<string>)
    ensures ReadScript("exec" + (" " + ShellJoin(argv))) == Some([LitWords(["exec"] + argv)])
  {
    ExecWords(argv);
    LastCommand("exec" + (" " + ShellJoin(argv)), LitWords(["exec"] + argv));
  }

  lemma SourcesHead(loaders: seq<string>, more: string)
    requires loaders != []
    ensures Sources(loaders) + more
         == "." + (" " + (loaders[0] + ("; " + (Sources(loaders[1..]) + more))))
    ensures DotCommands(loaders) == [LitWords([".", loaders[0]])] + DotCommands(loaders[1..])
  {
    hide Sources, DotCommands;
    var tail := Sources(loaders[1..]);
    SourcesOnce(loaders);
    SourceText(loaders[0], tail, more);
  }

  /** One step of both definitions. */
  lemma SourcesOnce(loaders: seq<string>)
    requires loaders != []
    ensures Sources(loaders) == ". " + (loaders[0] + ("; " + Sources(loaders[1..])))
    ensures DotCommands(loaders) == [LitWords([".", loaders[0]])] + DotCommands(loaders[1..])
  {
    hide LitWords;
  }

  lemma SourceText(l: string, tail: string, more: string)
    ensures ". " + (l + ("; " + tail)) + more == "." + (" " + (l + ("; " + (tail + more))))
  {
    assert ". " == "." + " ";
    assert l + ("; " + tail) + more == l + ("; " + (tail + more));
  }

  lemma {:induction false} SourcesRead(loaders: seq<string>, more: string)
    requires forall l :: l in loaders ==> PlainWord(l)
    requires ReadScript(more).Some?
    ensures ReadScript(Sources(loaders) + more) == Some(DotCommands(loaders) + ReadScript(more).value)
    decreases |loaders|
  {
    hide ReadScript, PlainWord;
    var cmds := ReadScript(more).value;
    if loaders == [] {
      assert Sources(loaders) + more == more;
      assert DotCommands(loaders) + cmds == cmds;
    } else {
      SourcesRead(loaders[1..], more);
      Keywords();
      TwoWordsThen(".", loaders[0], Sources(loaders[1..]) + more);
      SourcesHead(loaders, more);
      var first := [LitWords([".", loaders[0]])];
      assert first + (DotCommands(loaders[1..]) + cmds) == first + DotCommands(loaders[1..]) + cmds;
    }
  }

  /** The wrapped script is read as: set -a, one dot command per loader in order, set +a, and exec
      of the original words. The loaders are spliced without quotes, so they must be plain words
      (UnquotedIff in module Shell says that nothing less will do). */
  lemma WrapReads(loaders: seq<string>, argv: seq<string>)
    requires forall l :: l in loaders ==> PlainWord(l)
    ensures ReadScript(WrapText(loaders, ShellJoin(argv))) == Some(WrapCommands(loaders, argv))
  {
    var last := "exec" + (" " + ShellJoin(argv));
    var mid := "set" + (" " + ("+a" + ("; " + last)));
    UnsetReads(argv);
    SourcesRead(loaders, mid);
    Keywords();
    TwoWordsThen("set", "-a", Sources(loaders) + mid);
    WrapTextParts(loaders, ShellJoin(argv));
  }

  lemma UnsetReads(argv: seq<string>)
    ensures ReadScript("set" + (" " + ("+a" + ("; " + ("exec" + (" " + ShellJoin(argv)))))))
         == Some([LitWords(["set", "+a"]), LitWords(["exec"] + argv)])
  {
    var last := "exec" + (" " + ShellJoin(argv));
    ExecReads(argv);
    Keywords();
    TwoWordsThen("set", "+a", last);
    assert [LitWords(["set", "+a"])] + [LitWords(["exec"] + argv)]
        == [LitWords(["set", "+a"]), LitWords(["exec"] + argv)];
  }

  lemma WrapTextParts(loaders: seq<string>, entrypoint: string)
    ensures WrapText(loaders, entrypoint)
         == "set" + (" " + ("-a" + ("; " + (Sources(loaders)
                    + ("set" + (" " + ("+a" + ("; " + ("exec" + (" " + entrypoint))))))))))
  {
    assert "set +a; exec " + entrypoint
        == "set" + (" " + ("+a" + ("; " + ("exec" + (" " + entrypoint)))));
    assert "set -a; " + (Sources(loaders) + ("set +a; exec " + entrypoint))
        == "set" + (" " + ("-a" + ("; " + (Sources(loaders) + ("set +a; exec " + entrypoint)))));
  }

  // ----- The loader script -----

  function ExportLine(mountPath: string, name: string): string {
    "export " + (name + ("=\"$(cat " + (mountPath + ("/" + (name + ")\"\n")))))
  }

  function ExportLines(mountPath: string, names: seq<string>): string {
    if names == [] then "" else ExportLine(mountPath, names[0]) + ExportLines(mountPath, names[1..])
  }

  function LoaderText(mountPath: string, names: seq<string>): string {
    "#!/bin/sh\n" + ExportLines(mountPath, names)
  }

  function ExportCommand(mountPath: string, name: string): Command {
    [Lits("export"), Lits(name + "=") + [CatOf(mountPath + "/" + name)]]
  }

  function ExportCommands(mountPath: string, names: seq<string>): seq<Command> {
    if names == [] then []
    else [ExportCommand(mountPath, names[0])] + ExportCommands(mountPath, names[1..])
  }

  /** A file name the loader script can carry: plain, without '='. */
  predicate PlainKey(name: string) {
    PlainWord(name) && '=' !in name
  }

  lemma {:induction false} SpanAll(p: string, rest: string)
    requires AllPlain(p) && (rest == "" || !IsPlain(rest[0]))
    ensures SpanPlain(p + rest) == (p, rest)
    decreases |p|
  {
    if p == "" {
      assert p + rest == rest;
    } else {
      SpanAll(p[1..], rest);
      assert (p + rest)[1..] == p[1..] + rest;
      assert IsPlain(p[0]);
      assert [p[0]] + p[1..] == p;
    }
  }

  lemma CatReads(path: string, rest: string)
    requires PlainWord(path) && WordStops(rest)
    ensures ReadWord(Bare, "\"" + (CAT + (path + (")\"" + rest)))) == Some(([CatOf(path)], rest))
  {
    var inner := CAT + (path + (")\"" + rest));
    assert inner[|CAT|..] == path + (")\"" + rest);
    SpanAll(path, ")\"" + rest);
    assert (")\"" + rest)[1..] == "\"" + rest;
    assert ReadCat(inner) == Some((path, "\"" + rest));
    assert ("\"" + rest)[1..] == rest;
    assert ReadWord(Double, "\"" + rest) == Some(([], rest));
    assert inner[0] == '$';
    assert [CatOf(path)] + [] == [CatOf(path)];
    assert ReadWord(Double, inner) == Some(([CatOf(path)], rest));
    assert ("\"" + inner)[1..] == inner;
  }

  function AssignText(mountPath: string, name: string, rest: string): string {
    name + "=" + ("\"" + (CAT + ((mountPath + "/" + name) + (")\"" + rest))))
  }

  lemma AssignReads(mountPath: string, name: string, rest: string)
    requires PlainWord(mountPath) && PlainKey(name) && WordStops(rest)
    ensures ReadCommand(AssignText(mountPath, name, rest))
         == Before(Lits(name + "=") + [CatOf(mountPath + "/" + name)], ReadCommand(rest))
  {
    var path := mountPath + "/" + name;
    assert PlainWord(path);
    CatReads(path, rest);
    var assign := name + "=";
    var cat := "\"" + (CAT + (path + (")\"" + rest)));
    assert AllPlain(assign);
    ReadPlain(assign, cat);
    assert (assign + cat)[0] == name[0];
    WordThen(assign + cat, Lits(assign) + [CatOf(path)], rest);
  }

  lemma ExportLineParts(mountPath: string, name: string, more: string)
    ensures ExportLine(mountPath, name) + more
         == "export" + (" " + AssignText(mountPath, name, "\n" + more))
  {
    var path := mountPath + "/" + name;
    assert mountPath + ("/" + (name + ")\"\n")) == path + ")\"\n";
    assert "=\"$(cat " + (path + ")\"\n") == "=" + ("\"" + (CAT + (path + ")\"\n")));
    assert (path + ")\"\n") + more == path + (")\"" + ("\n" + more));
  }

  lemma ExportLineReads(mountPath: string, name: string, more: string)
    requires PlainWord(mountPath) && PlainKey(name)
    ensures ReadCommand(ExportLine(mountPath, name) + more)
         == Some((ExportCommand(mountPath, name), "\n" + more))
  {
    var rest := "\n" + more;
    var path := mountPath + "/" + name;
    var assign := AssignText(mountPath, name, rest);
    AssignReads(mountPath, name, rest);
    SkipBlank(assign);
    Keywords();
    PlainThen("export", " " + assign);
    ExportLineParts(mountPath, name, more);
    assert ReadCommand(rest) == Some(([], rest));
    var word := Lits(name + "=") + [CatOf(path)];
    assert [Lits("export")] + ([word] + []) == ExportCommand(mountPath, name);
  }

  lemma {:induction false} ExportLinesRead(mountPath: string, names: seq<string>)
    requires PlainWord(mountPath) && forall n :: n in names ==> PlainKey(n)
    ensures ReadScript(ExportLines(mountPath, names)) == Some(ExportCommands(mountPath, names))
    decreases |names|
  {
    if names != [] {
      var more := ExportLines(mountPath, names[1..]);
      ExportLinesRead(mountPath, names[1..]);
      ExportLineReads(mountPath, names[0], more);
      ScriptStep(ExportLine(mountPath, names[0]) + more, ExportCommand(mountPath, names[0]), "\n" + more);
      assert ("\n" + more)[1..] == more;
    }
  }

  /** The loader script is read as one export command per name; its first line is a comment. */
  lemma LoaderReads(mountPath: string, names: seq<string>)
    requires PlainWord(mountPath) && forall n :: n in names ==> PlainKey(n)
    ensures ReadScript(LoaderText(mountPath, names)) == Some(ExportCommands(mountPath, names))
  {
    ExportLinesRead(mountPath, names);
    var more := ExportLines(mountPath, names);
    var s := LoaderText(mountPath, names);
    SkipShebang(more);
    assert ("\n" + more)[1..] == more;
  }

  lemma SkipShebang(more: string)
    ensures ReadCommand("#!/bin/sh\n" + more) == Some(([], "\n" + more))
  {
    var s := "#!/bin/sh\n" + more;
    SkipTo("#!/bin/sh", "\n" + more);
    assert s == "#!/bin/sh" + ("\n" + more);
  }

  lemma {:induction false} SkipTo(line: string, rest: string)
    requires '\n' !in line && rest != "" && rest[0] == '\n'
    ensures SkipLine(line + rest) == rest
    decreases |line|
  {
    if line == "" {
      assert line + rest == rest;
    } else {
      assert (line + rest)[1..] == line[1..] + rest;
      SkipTo(line[1..], rest);
    }
  }

  // ----- What the loader script does -----

  function FileText(mountPath: string, name: string, m: Machine, env: Env): string {
    CatText(mountPath + "/" + name, m, env)
  }

  /** The environment after a loader has set the names one after the other, each to what cat prints of its
      file under the search path then in force. */
  function LoadNames(mountPath: string, names: seq<string>, m: Machine, env: Env): Env
    decreases |names|
  {
    if names == [] then env
    else LoadNames(mountPath, names[1..], m, env[names[0] := FileText(mountPath, names[0], m, env)])
  }

  lemma {:induction false} SplitAt(name: string, value: string)
    requires '=' !in name
    ensures SplitAssignment(name + "=" + value) == Some((name, value))
    decreases |name|
  {
    var s := name + "=" + value;
    if name == "" {
      assert s[1..] == value;
    } else {
      assert s[1..] == name[1..] + "=" + value;
      SplitAt(name[1..], value);
      assert [name[0]] + name[1..] == name;
    }
  }

  lemma RunExportCommand(mountPath: string, name: string, m: Machine, env: Env)
    requires '=' !in name
    ensures RunExport(ExpandAll(ExportCommand(mountPath, name), m, env), env)
         == if IsName(name) then Some(env[name := FileText(mountPath, name, m, env)]) else None
  {
    hide CatText, IsName;
    var path := mountPath + "/" + name;
    var value := FileText(mountPath, name, m, env);
    ExpandLits("export", [], m, env);
    assert Lits("export") + [] == Lits("export");
    var cat: Word := [CatOf(path)];
    assert Expand(cat, m, env) == value by {
      assert cat[1..] == [];
      assert value + "" == value;
    }
    ExpandLits(name + "=", cat, m, env);
    SplitAt(name, value);
    var words := ExpandAll(ExportCommand(mountPath, name), m, env);
    assert words[0] == "export" && words[1] == name + "=" + value;
  }

  /** Running the loader's commands succeeds exactly if every name may be a variable, and then sets the
      names one after the other. */
  lemma {:induction false} RunExportCommands(mountPath: string, names: seq<string>, m: Machine, env: Env)
    requires forall n :: n in names ==> '=' !in n
    ensures RunExports(ExportCommands(mountPath, names), m, env)
         == if forall n :: n in names ==> IsName(n) then Some(LoadNames(mountPath, names, m, env)) else None
    decreases |names|
  {
    hide IsName, CatText, ExportCommand, RunExport;
    if names != [] {
      var n := names[0];
      RunExportCommand(mountPath, n, m, env);
      RunExportCommands(mountPath, names[1..], m, env[n := FileText(mountPath, n, m, env)]);
      assert forall x :: x in names <==> x == n || x in names[1..];
      assert ExportCommands(mountPath, names)[1..] == ExportCommands(mountPath, names[1..]);
      assert ExportCommands(mountPath, names)[0] == ExportCommand(mountPath, n);
    }
  }
}
