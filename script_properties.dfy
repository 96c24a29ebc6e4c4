/** Properties of the script that `csv2sh` generates: the fixed frame, the
    records' lines in input order, all-or-nothing failure, and the shape of
    the lines of each kind of record. */
module ScriptProperties {
  import opened Wrappers
  import opened Users
  import opened Script
  import Timestamp

  const HeaderText := "mkdir out\npushd out\ngit init\n"
  const FooterText := "popd\n"

  lemma {:induction false} UnlinesAppend(a: seq<string>, b: seq<string>)
    ensures Unlines(a + b) == Unlines(a) + Unlines(b)
    decreases |b|
  {
    if b == [] {
      assert a + b == a;
    } else {
      var b', last := b[..|b| - 1], b[|b| - 1];
      assert (a + b)[..|a + b| - 1] == a + b';
      assert (a + b)[|a + b| - 1] == last;
      UnlinesAppend(a, b');
      calc {
        Unlines(a + b);
        Unlines(a + b') + last + "\n";
        Unlines(a) + Unlines(b') + last + "\n";
        Unlines(a) + (Unlines(b') + last + "\n");
        Unlines(a) + Unlines(b);
      }
    }
  }

  lemma HeaderAndFooterText()
    ensures Unlines(HeaderLines) == HeaderText
    ensures Unlines(FooterLines) == FooterText
  {
    assert "mkdir " + OutputDir == "mkdir out";
    assert "pushd " + OutputDir == "pushd out";
    var h := HeaderLines;
    assert h[..2][..1][..0] == [];
    assert h[..2][..1] == ["mkdir out"];
    assert h[..2] == ["mkdir out", "pushd out"];
    assert Unlines(h[..2][..1]) == "mkdir out\n";
    assert Unlines(h[..2]) == "mkdir out\npushd out\n";
    assert FooterLines[..0] == [];
  }

  /** The script starts with `mkdir out`, `pushd out`, `git init` and ends with
      `popd`; when the output directory exists there is only the error. */
  lemma ScriptFrame(outDirExists: bool, rs: seq<Record>, users: Registry)
    ensures outDirExists ==> Generate(outDirExists, rs, users) == Err(OutDirExists("out"))
    ensures Generate(outDirExists, rs, users).Ok? ==>
      var s := Generate(outDirExists, rs, users).value;
      && |s| >= |HeaderText| + |FooterText|
      && s[..|HeaderText|] == HeaderText
      && s[|s| - |FooterText|..] == FooterText
  {
    if !outDirExists && BodyLines(rs, users).Ok? {
      var body := BodyLines(rs, users).value;
      HeaderAndFooterText();
      UnlinesAppend(HeaderLines, body);
      UnlinesAppend(HeaderLines + body, FooterLines);
      var s := Generate(outDirExists, rs, users).value;
      assert s == HeaderText + Unlines(body) + FooterText;
    }
  }

  /** Joining two outcome lists joins their lines in the same order, and the
      first error decides the outcome. */
  lemma {:induction false} CollectAppend(a: seq<Result<seq<string>, Error>>, b: seq<Result<seq<string>, Error>>)
    ensures Collect(a).Err? ==> Collect(a + b) == Collect(a)
    ensures Collect(a).Ok? && Collect(b).Err? ==> Collect(a + b) == Collect(b)
    ensures Collect(a).Ok? && Collect(b).Ok? ==> Collect(a + b) == Ok(Collect(a).value + Collect(b).value)
    decreases |b|
  {
    if b == [] {
      assert a + b == a;
      if Collect(a).Ok? {
        assert Collect(a).value + [] == Collect(a).value;
      }
    } else {
      var b', last := b[..|b| - 1], b[|b| - 1];
      assert (a + b)[..|a + b| - 1] == a + b';
      assert (a + b)[|a + b| - 1] == last;
      CollectAppend(a, b');
      if Collect(a).Ok? && Collect(b').Ok? && last.Ok? {
        var x, y, z := Collect(a).value, Collect(b').value, last.value;
        assert x + y + z == x + (y + z);
      }
    }
  }

  predicate AllRowsOk(rs: seq<Record>, users: Registry)
  {
    forall i :: 0 <= i < |rs| ==> RowLines(rs[i], users).Ok?
  }

  /** The text of each record's lines, concatenated front to back. */
  function RowsText(rs: seq<Record>, users: Registry): string
    requires AllRowsOk(rs, users)
  {
    if rs == [] then "" else Unlines(RowLines(rs[0], users).value) + RowsText(rs[1..], users)
  }

  /** The index of the first record whose lines cannot be produced. */
  function FirstFailingRow(rs: seq<Record>, users: Registry): (j: nat)
    requires !AllRowsOk(rs, users)
    ensures j < |rs| && RowLines(rs[j], users).Err?
    ensures forall k :: 0 <= k < j ==> RowLines(rs[k], users).Ok?
  {
    if RowLines(rs[0], users).Err? then 0
    else
      assert !AllRowsOk(rs[1..], users) by {
        var i :| 0 <= i < |rs| && RowLines(rs[i], users).Err?;
        assert rs[1..][i - 1] == rs[i];
      }
      var j := 1 + FirstFailingRow(rs[1..], users);
      assert forall k :: 1 <= k < j ==> rs[k] == rs[1..][k - 1];
      j
  }

  lemma {:induction false} BodyLinesOfValidRows(rs: seq<Record>, users: Registry)
    requires AllRowsOk(rs, users)
    ensures BodyLines(rs, users).Ok?
    ensures Unlines(BodyLines(rs, users).value) == RowsText(rs, users)
    decreases |rs|
  {
    if rs != [] {
      var tail := rs[1..];
      assert AllRowsOk(tail, users) by {
        forall i | 0 <= i < |tail| ensures RowLines(tail[i], users).Ok? {
          assert tail[i] == rs[i + 1];
        }
      }
      BodyLinesOfValidRows(tail, users);
      var head := [RowLines(rs[0], users)];
      assert Collect(head) == Ok([] + head[0].value) by {
        assert head[..0] == [];
      }
      assert RowResults(rs, users) == head + RowResults(tail, users);
      CollectAppend(head, RowResults(tail, users));
      assert [] + head[0].value == head[0].value;
      UnlinesAppend(head[0].value, BodyLines(tail, users).value);
    }
  }

  /** The first failing record decides the error; nothing after it matters. */
  lemma FirstFailureDecides(rs: seq<Record>, users: Registry, j: nat)
    requires j < |rs|
    requires forall k :: 0 <= k < j ==> RowLines(rs[k], users).Ok?
    requires RowLines(rs[j], users).Err?
    ensures BodyLines(rs, users) == Err(RowLines(rs[j], users).error)
    ensures Generate(false, rs, users) == Err(RowLines(rs[j], users).error)
  {
    var pre := rs[..j];
    assert AllRowsOk(pre, users) by {
      forall k | 0 <= k < |pre| ensures RowLines(pre[k], users).Ok? {
        assert pre[k] == rs[k];
      }
    }
    BodyLinesOfValidRows(pre, users);
    var outs := RowResults(rs, users);
    assert outs[..j] == RowResults(pre, users);
    assert outs[..j + 1][..j] == outs[..j];
    assert outs[..j + 1][j] == RowLines(rs[j], users);
    assert Collect(outs[..j + 1]) == Err(RowLines(rs[j], users).error);
    CollectAppend(outs[..j + 1], outs[j + 1..]);
    assert outs[..j + 1] + outs[j + 1..] == outs;
  }

  /** Generation succeeds exactly when the output directory is absent and
      every record can be rendered; it then returns the header, every
      record's lines in input order, and the footer. Otherwise it returns the
      directory error or the error of the first failing record, never part of
      a script. */
  lemma GenerateAllOrNothing(outDirExists: bool, rs: seq<Record>, users: Registry)
    ensures Generate(outDirExists, rs, users).Ok? <==> !outDirExists && AllRowsOk(rs, users)
    ensures !outDirExists && AllRowsOk(rs, users) ==>
      Generate(outDirExists, rs, users).value == HeaderText + RowsText(rs, users) + FooterText
    ensures !outDirExists && !AllRowsOk(rs, users) ==>
      Generate(outDirExists, rs, users) == Err(RowLines(rs[FirstFailingRow(rs, users)], users).error)
  {
    if !outDirExists {
      if AllRowsOk(rs, users) {
        BodyLinesOfValidRows(rs, users);
        var body := BodyLines(rs, users).value;
        HeaderAndFooterText();
        UnlinesAppend(HeaderLines, body);
        UnlinesAppend(HeaderLines + body, FooterLines);
      } else {
        FirstFailureDecides(rs, users, FirstFailingRow(rs, users));
      }
    }
  }

  /** A record of any kind other than `commit` or `tag`, anywhere in the
      table, means no script; if no earlier record fails, the error names that
      kind as written. */
  lemma UnknownKindAborts(outDirExists: bool, rs: seq<Record>, users: Registry, j: nat)
    requires j < |rs|
    requires Lower(rs[j].kind) != "commit" && Lower(rs[j].kind) != "tag"
    ensures Generate(outDirExists, rs, users).Err?
    ensures !outDirExists && (forall k :: 0 <= k < j ==> RowLines(rs[k], users).Ok?) ==>
      Generate(outDirExists, rs, users) == Err(UnknownCommand(rs[j].kind))
  {
    GenerateAllOrNothing(outDirExists, rs, users);
    if !outDirExists && forall k :: 0 <= k < j ==> RowLines(rs[k], users).Ok? {
      FirstFailureDecides(rs, users, j);
    }
  }

  /** The kind is compared without regard to ASCII case: it equals a
      lower-case word after lower-casing exactly when each of its characters
      is that word's letter in either case. */
  lemma KindMatchIgnoresCase(kind: string, word: string)
    requires forall i :: 0 <= i < |word| ==> 'a' <= word[i] <= 'z'
    ensures Lower(kind) == word <==>
      |kind| == |word| &&
      forall i :: 0 <= i < |kind| ==> kind[i] == word[i] || kind[i] as int == word[i] as int - 32
  {
    if |kind| == |word| && forall i :: 0 <= i < |kind| ==> kind[i] == word[i] || kind[i] as int == word[i] as int - 32 {
      assert forall i :: 0 <= i < |kind| ==> Lower(kind)[i] == word[i];
    }
    if Lower(kind) == word {
      forall i | 0 <= i < |kind| ensures kind[i] == word[i] || kind[i] as int == word[i] as int - 32 {
        assert LowerChar(kind[i]) == word[i];
      }
    }
  }

  /** One of the two identity blocks of a commit line. */
  function Identity(role: string, user: User, date: string): string
  {
    "GIT_" + role + "_NAME=\"" + user.name + "\" GIT_" + role + "_EMAIL=\"" + user.mail
    + "\" GIT_" + role + "_DATE=\"" + date + "\""
  }

  lemma Glue(x: string, a: string, b: string, c: string)
    requires a + b == c
    ensures x + a + b == x + c
  {
  }

  lemma Assoc(x: string, y: string, z: string)
    ensures x + (y + z) == x + y + z
  {
  }

  lemma CommitterIdentity(user: User, date: string)
    ensures Identity("COMMITTER", user, date) ==
      "GIT_COMMITTER_NAME=\"" + user.name + "\" GIT_COMMITTER_EMAIL=\"" + user.mail
      + "\" GIT_COMMITTER_DATE=\"" + date + "\""
  {
    Glue([], "GIT_", "COMMITTER", "GIT_COMMITTER");
    Glue([], "GIT_COMMITTER", "_NAME=\"", "GIT_COMMITTER_NAME=\"");
    var x := "GIT_COMMITTER_NAME=\"" + user.name;
    Glue(x, "\" GIT_", "COMMITTER", "\" GIT_COMMITTER");
    Glue(x, "\" GIT_COMMITTER", "_EMAIL=\"", "\" GIT_COMMITTER_EMAIL=\"");
    x := x + "\" GIT_COMMITTER_EMAIL=\"" + user.mail;
    Glue(x, "\" GIT_", "COMMITTER", "\" GIT_COMMITTER");
    Glue(x, "\" GIT_COMMITTER", "_DATE=\"", "\" GIT_COMMITTER_DATE=\"");
  }

  lemma AuthorIdentity(user: User, date: string)
    ensures Identity("AUTHOR", user, date) ==
      "GIT_AUTHOR_NAME=\"" + user.name + "\" GIT_AUTHOR_EMAIL=\"" + user.mail
      + "\" GIT_AUTHOR_DATE=\"" + date + "\""
  {
    Glue([], "GIT_", "AUTHOR", "GIT_AUTHOR");
    Glue([], "GIT_AUTHOR", "_NAME=\"", "GIT_AUTHOR_NAME=\"");
    var x := "GIT_AUTHOR_NAME=\"" + user.name;
    Glue(x, "\" GIT_", "AUTHOR", "\" GIT_AUTHOR");
    Glue(x, "\" GIT_AUTHOR", "_EMAIL=\"", "\" GIT_AUTHOR_EMAIL=\"");
    x := x + "\" GIT_AUTHOR_EMAIL=\"" + user.mail;
    Glue(x, "\" GIT_", "AUTHOR", "\" GIT_AUTHOR");
    Glue(x, "\" GIT_AUTHOR", "_DATE=\"", "\" GIT_AUTHOR_DATE=\"");
  }

  /** Regrouping of a concatenation whose separators split as shown. */
  lemma Regroup(p: string, l3: string, q: string, sp: string, a0: string, n: string, l4: string,
                m: string, l5: string, d: string, l6: string, e: string, c: string)
    requires l3 == q + sp + a0 && l6 == q + e
    ensures p + l3 + n + l4 + m + l5 + d + l6 + c == p + q + sp + (a0 + n + l4 + m + l5 + d + q) + e + c
  {
    var author := a0 + n + l4 + m + l5 + d;
    calc {
      p + l3 + n + l4 + m + l5 + d + l6 + c;
      { Assoc(p, l3, n); Assoc(p + (l3 + n), l4, m); }
      p + (l3 + n) + l4 + m + l5 + d + l6 + c;
      == { assert p + (l3 + n) + l4 + m + l5 + d == p + q + sp + author; }
      p + q + sp + author + l6 + c;
      == { Assoc(p + q + sp + author, q, e); }
      p + q + sp + author + q + e + c;
      == { Assoc(p + q + sp, author, q); }
      p + q + sp + (author + q) + e + c;
    }
  }

  /** The commit line sets committer and author to the same name, e-mail and
      date, and ends with the message after `-m`, as written. */
  lemma CommitterIsAuthor(user: User, date: string, comment: string)
    ensures CommitLine(user, date, comment) ==
      Identity("COMMITTER", user, date) + " " + Identity("AUTHOR", user, date) + " git commit -m " + comment
  {
    CommitterIdentity(user, date);
    AuthorIdentity(user, date);
    var committer := "GIT_COMMITTER_NAME=\"" + user.name + "\" GIT_COMMITTER_EMAIL=\"" + user.mail
      + "\" GIT_COMMITTER_DATE=\"" + date;
    assert "\" GIT_AUTHOR_NAME=\"" == "\"" + " " + "GIT_AUTHOR_NAME=\"";
    assert "\" git commit -m " == "\"" + " git commit -m ";
    Regroup(committer, "\" GIT_AUTHOR_NAME=\"", "\"", " ", "GIT_AUTHOR_NAME=\"", user.name,
            "\" GIT_AUTHOR_EMAIL=\"", user.mail, "\" GIT_AUTHOR_DATE=\"", date,
            "\" git commit -m ", " git commit -m ", comment);
  }

  /** A `commit` record yields lines exactly when its four arguments are
      present, its timestamp parses and its user is registered; it then yields
      four lines: the wipe, the copy from ARG3 with `/.` appended, the staging
      line and the commit line, whose date is ARG1 with only its separators
      changed. */
  lemma CommitRecordLines(r: Record, users: Registry)
    requires Lower(r.kind) == "commit"
    ensures RowLines(r, users).Ok? <==>
      && r.arg1.Some? && Timestamp.ReformatDate(r.arg1.value).Some?
      && r.arg2.Some? && r.arg2.value in users
      && r.arg3.Some? && r.arg4.Some?
    ensures RowLines(r, users).Ok? ==>
      var ls := RowLines(r, users).value;
      var user := users[r.arg2.value];
      var s := r.arg1.value;
      var date := s[..4] + "-" + s[5..7] + "-" + s[8..10] + "T" + s[11..];
      && |ls| == 4
      && ls[0] == "find . -not -path './.git*' -not -path '.' -print0 | xargs -0 rm -rf"
      && ls[1] == "cp -r " + r.arg3.value + "/. ."
      && ls[2] == "git add -A"
      && ls[3] == Identity("COMMITTER", user, date) + " " + Identity("AUTHOR", user, date)
                  + " git commit -m " + r.arg4.value
  {
    if RowLines(r, users).Ok? {
      var s := r.arg1.value;
      Timestamp.ReformatChangesOnlySeparators(s);
      var date := Timestamp.ReformatDate(s).value;
      CommitterIsAuthor(users[r.arg2.value], date, r.arg4.value);
      assert CopyLine(r.arg3.value) == "cp -r " + r.arg3.value + "/. .";
    }
  }

  /** A `tag` record yields the single line `git tag ARG4`; ARG1 to ARG3 and
      the registry play no part. */
  lemma TagRecordLines(r: Record, users: Registry, a1: Option<string>, a2: Option<string>,
                       a3: Option<string>, others: Registry)
    requires Lower(r.kind) == "tag"
    ensures RowLines(r, users) == if r.arg4.Some? then Ok(["git tag " + r.arg4.value]) else Err(MissingField(4))
    ensures RowLines(r, users) == RowLines(Record(r.kind, a1, a2, a3, r.arg4), others)
  {
  }
}
