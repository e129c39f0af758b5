/** The file server's protocol letter by letter: what both programs put on the wire
    (week5/Iserver.c, week5/Iclient.c, week5/Icommon.h). */
module Wording {
  import opened Sequences
  import opened Decimal
  import opened Lines
  import opened Session
  import FileServer
  import Download
  import Upload

  lemma FramedIsLiteral(line: string)
    requires Clean(line)
    ensures Sendable(line) && Framed(line) == line + "\n"
  {
  }

  /** The prompt as it goes over the wire. */
  lemma {:induction false} PromptIsSpelledOut()
    ensures Sendable(TEXTS.commands)
    ensures Framed(TEXTS.commands) == "COMMANDS: list, " + "get <filename>, " + "load <filename>, quit" + "\n"
  {
    TextsAreProper();
    FramedIsLiteral(TEXTS.commands);
  }

  /** The lines that answer a list. */
  lemma ListIsSpelled(env: FileServer.Env, files: map<string, string>)
    ensures FileServer.AnswerLines(TEXTS, List, env, files)
         == if env.dirOpens then ["Files:"] + env.names + ["END =========="] else ["Failed to open directory"]
  {
  }

  /** The lines that answer a get. */
  lemma GetIsSpelled(name: string, env: FileServer.Env, files: map<string, string>)
    ensures FileServer.AnswerLines(TEXTS, Get(name), env, files)
         == if ServerPath(name) in files then ["START"] + FileLines(files[ServerPath(name)]) + ["END =========="]
            else ["File not found"]
  {
  }

  /** A refused upload and an unknown command. */
  lemma RefusalsAreSpelled(name: string, env: FileServer.Env, files: map<string, string>)
    ensures FileServer.AnswerLines(TEXTS, Load(name), env, files) == ["FAILED"]
    ensures FileServer.AnswerLines(TEXTS, Other, env, files) == ["Unknown command"]
  {
  }

  lemma {:induction false} FileIsSpelledOut(content: string)
    requires Download.Downloadable(content)
    ensures Download.FileStream(content) == Download.Normalized(content) + "END ==========\n"
    decreases |content|
  {
    if content == "" {
      FramedIsLiteral(Download.END);
      assert "" + "END ==========\n" == "END ==========" + "\n";
    } else {
      var line, rest := Download.FirstLine(content), Download.AfterLine(content);
      Download.ShortLineIsSent(content);
      FileIsSpelledOut(rest);
      Download.NormalizedSplits(content);
      FramedIsLiteral(line);
      Associative(line + "\n", Download.Normalized(rest), "END ==========\n");
    }
  }

  /** A downloadable file goes over the wire as it is, between two marker lines. */
  lemma DownloadIsSpelledOut(content: string)
    requires Download.Downloadable(content)
    ensures Download.GetStream(content) == "START\n" + (Download.Normalized(content) + "END ==========\n")
  {
    FileIsSpelledOut(content);
    FramedIsLiteral(Download.START);
    assert "START" + "\n" == "START\n";
  }

  /** And an upload as its size in decimal, a newline, and the file. */
  lemma UploadIsSpelledOut(content: string)
    requires |content| <= 0x7fff_ffff_ffff_ffff
    ensures Upload.UploadStream(content) == Print(|content|) + "\n" + content
  {
    Upload.SizeLineFits(|content|);
    FramedIsLiteral(Print(|content|));
  }

  lemma UploadWordsAreFramed()
    ensures Framed(Upload.READY) == "READY\n"
    ensures Framed(Upload.FAILED) == "FAILED\n"
    ensures Framed(Upload.UPLOAD_DONE) == "UPLOAD DONE\n"
  {
  }

  /** The server's verdict on an upload. */
  lemma VerdictsAreSpelledOut(content: string, tail: string)
    requires |content| <= 0x7fff_ffff
    ensures |content| <= Upload.LONG_MAX
    ensures Upload.ReadsAreDefined(Upload.UploadStream(content) + tail)
    ensures Upload.Receive(Upload.UploadStream(content) + tail).reply
         == if content == "" then "FAILED\n" else "UPLOAD DONE\n"
  {
    Upload.UploadRoundTrips(content, tail);
    UploadWordsAreFramed();
  }

  /** The size line may be 126 bytes long, no more. */
  lemma SizeLineLimit(line: string, rest: string)
    requires '\n' !in line
    ensures ReadLine(line + ['\n'] + rest, Upload.SIZE_BUF) == Line(line, rest) <==> |line| <= 126
  {
    var stream := line + ['\n'] + rest;
    assert stream[|line|] == '\n' && forall i :: 0 <= i < |line| ==> stream[i] == line[i];
    assert IndexOf(stream, '\n') == |line|;
    assert stream[..|line|] == line && stream[|line| + 1..] == rest;
  }
}
