/** `csv2sh`: the loop that appends the script to a string record by record,
    proved to produce exactly the text, or the error, that `Script.Generate`
    specifies for the built-in registry. */
module Csv2Sh {
  import opened Wrappers
  import opened Users
  import opened Script
  import ScriptProperties
  import Timestamp

  lemma AppendLine(lines: seq<string>, line: string)
    ensures Unlines(lines + [line]) == Unlines(lines) + line + "\n"
  {
    assert (lines + [line])[..|lines|] == lines;
  }

  /** The text after the first `i` records, when all of them succeed. */
  ghost predicate ScriptSoFar(sh: string, rs: seq<Record>, i: nat, users: Registry)
    requires i <= |rs|
  {
    BodyLines(rs[..i], users).Ok? && sh == Unlines(HeaderLines + BodyLines(rs[..i], users).value)
  }

  /** The accumulation over one more outcome that succeeds. */
  lemma CollectStep(outs: seq<Result<seq<string>, Error>>, i: nat)
    requires i < |outs| && Collect(outs[..i]).Ok? && outs[i].Ok?
    ensures Collect(outs[..i + 1]) == Ok(Collect(outs[..i]).value + outs[i].value)
  {
    assert outs[..i + 1][..i] == outs[..i];
  }

  /** The lines of the records up to one more succeeding record. */
  lemma BodyStep(rs: seq<Record>, i: nat, users: Registry)
    requires i < |rs| && BodyLines(rs[..i], users).Ok? && RowLines(rs[i], users).Ok?
    ensures BodyLines(rs[..i + 1], users) == Ok(BodyLines(rs[..i], users).value + RowLines(rs[i], users).value)
  {
    var outs := RowResults(rs[..i + 1], users);
    assert outs[..i] == RowResults(rs[..i], users);
    assert outs[i] == RowLines(rs[i], users);
    CollectStep(outs, i);
  }

  lemma HeaderTextStep(prev: seq<string>, lines: seq<string>)
    ensures Unlines(HeaderLines + prev) + Unlines(lines) == Unlines(HeaderLines + (prev + lines))
  {
    ScriptProperties.UnlinesAppend(HeaderLines + prev, lines);
    assert HeaderLines + prev + lines == HeaderLines + (prev + lines);
  }

  /** Appending the text of a succeeding record extends the script by that record. */
  lemma ScriptStep(sh: string, rs: seq<Record>, i: nat, users: Registry)
    requires i < |rs| && ScriptSoFar(sh, rs, i, users)
    requires RowLines(rs[i], users).Ok?
    ensures ScriptSoFar(sh + Unlines(RowLines(rs[i], users).value), rs, i + 1, users)
  {
    BodyStep(rs, i, users);
    HeaderTextStep(BodyLines(rs[..i], users).value, RowLines(rs[i], users).value);
  }

  /** After the last record, appending the footer completes the script. */
  lemma ScriptEnd(sh: string, rs: seq<Record>, users: Registry)
    requires ScriptSoFar(sh, rs, |rs|, users)
    ensures Generate(false, rs, users) == Ok(sh + "popd\n")
  {
    assert rs[..|rs|] == rs;
    var body := BodyLines(rs, users).value;
    AppendLine(HeaderLines + body, "popd");
    assert Generate(false, rs, users) == Ok(Unlines(HeaderLines + body + FooterLines));
    assert sh + "popd" + "\n" == sh + "popd\n";
  }

  /** A failing record after records that all succeeded decides the outcome. */
  lemma FailureAfterValidPrefix(rs: seq<Record>, i: nat, users: Registry)
    requires i < |rs|
    requires BodyLines(rs[..i], users).Ok? && RowLines(rs[i], users).Err?
    ensures Generate(false, rs, users) == Err(RowLines(rs[i], users).error)
  {
    var outs := RowResults(rs, users);
    assert outs[..i + 1][..i] == RowResults(rs[..i], users);
    assert Collect(outs[..i + 1]) == Err(RowLines(rs[i], users).error);
    ScriptProperties.CollectAppend(outs[..i + 1], outs[i + 1..]);
    assert outs[..i + 1] + outs[i + 1..] == outs;
  }

  /** The `commit` arm of the loop body. */
  method CommitText(record: Record, users: Registry) returns (result: Result<string, Error>)
    ensures CommitLines(record, users).Err? ==> result == Err(CommitLines(record, users).error)
    ensures CommitLines(record, users).Ok? ==> result == Ok(Unlines(CommitLines(record, users).value))
  {
    if record.arg1.None? {
      return Err(MissingField(1));
    }
    var arg1 := record.arg1.value;
    var parsed := Timestamp.ReformatDate(arg1);
    if parsed.None? {
      return Err(InvalidTimestamp(arg1));
    }
    var date := parsed.value;

    if record.arg2.None? {
      return Err(MissingField(2));
    }
    var userId := record.arg2.value;
    if userId !in users {
      return Err(UnknownUser(userId));
    }
    var user := users[userId];

    if record.arg3.None? {
      return Err(MissingField(3));
    }
    var input := record.arg3.value;
    input := input + "/.";
    if record.arg4.None? {
      return Err(MissingField(4));
    }
    var comment := record.arg4.value;

    var sh := "";
    ghost var lines: seq<string> := [];
    AppendLine(lines, WipeLine);
    sh, lines := sh + WipeLine + "\n", lines + [WipeLine];
    AppendLine(lines, "cp -r " + input + " .");
    sh, lines := sh + ("cp -r " + input + " .") + "\n", lines + ["cp -r " + input + " ."];
    AppendLine(lines, StageLine);
    sh, lines := sh + StageLine + "\n", lines + [StageLine];
    AppendLine(lines, CommitLine(user, date, comment));
    sh, lines := sh + CommitLine(user, date, comment) + "\n", lines + [CommitLine(user, date, comment)];
    assert lines == CommitLines(record, users).value;
    return Ok(sh);
  }

  /** The body of the `for` loop for one record: the text it appends to the
      script, or the error that ends generation. */
  method RecordText(record: Record, users: Registry) returns (result: Result<string, Error>)
    ensures RowLines(record, users).Err? ==> result == Err(RowLines(record, users).error)
    ensures RowLines(record, users).Ok? ==> result == Ok(Unlines(RowLines(record, users).value))
  {
    var kind := Lower(record.kind);
    if kind == "commit" {
      result := CommitText(record, users);
    } else if kind == "tag" {
      if record.arg4.None? {
        return Err(MissingField(4));
      }
      AppendLine([], "git tag " + record.arg4.value);
      result := Ok("" + ("git tag " + record.arg4.value) + "\n");
    } else {
      result := Err(UnknownCommand(record.kind));
    }
  }

  /** `csv2sh`, with the existence of the output directory given as an input
      and the command table given as already-read records. */
  method Csv2Sh(outDirExists: bool, records: seq<Record>) returns (result: Result<string, Error>)
    ensures result == Generate(outDirExists, records, DefaultUsers)
  {
    var outputDir := OutputDir;
    if outDirExists {
      return Err(OutDirExists(outputDir));
    }

    var users := NewUsers();

    var sh := "";
    ghost var header: seq<string> := [];
    AppendLine(header, "mkdir " + outputDir);
    sh, header := sh + ("mkdir " + outputDir) + "\n", header + ["mkdir " + outputDir];
    AppendLine(header, "pushd " + outputDir);
    sh, header := sh + ("pushd " + outputDir) + "\n", header + ["pushd " + outputDir];
    AppendLine(header, "git init");
    sh, header := sh + "git init" + "\n", header + ["git init"];
    assert ScriptSoFar(sh, records, 0, users) by {
      assert records[..0] == [];
      assert header == HeaderLines + [];
    }

    for i := 0 to |records|
      invariant ScriptSoFar(sh, records, i, users)
    {
      var fragment := RecordText(records[i], users);
      if fragment.Err? {
        FailureAfterValidPrefix(records, i, users);
        return Err(fragment.error);
      }
      ScriptStep(sh, records, i, users);
      sh := sh + fragment.value;
    }
    ScriptEnd(sh, records, users);
    sh := sh + "popd\n";
    return Ok(sh);
  }
}

/** The unit test of `csv2sh`: two commits by `taro` and one tag. */
module Csv2ShScenario {
  import opened Wrappers
  import opened Users
  import opened Script
  import Timestamp

  lemma TwoDigits(s: string)
    requires |s| == 2 && Timestamp.AllDigits(s)
    ensures Timestamp.DigitsValue(s) == (s[0] as int - '0' as int) * 10 + (s[1] as int - '0' as int)
  {
    assert s[..1][..0] == [];
  }

  lemma FourDigits(s: string)
    requires |s| == 4 && Timestamp.AllDigits(s)
    ensures Timestamp.DigitsValue(s) ==
      (s[0] as int - '0' as int) * 1000 + (s[1] as int - '0' as int) * 100
      + (s[2] as int - '0' as int) * 10 + (s[3] as int - '0' as int)
  {
    assert s[..3][..2] == s[..2];
    assert Timestamp.AllDigits(s[..2]);
    TwoDigits(s[..2]);
  }

  lemma FieldsOf(s: string)
    requires Timestamp.HasLayout(s, '/', ' ')
    ensures var dt := Timestamp.Fields(s, '/', ' ');
      && dt.year == (s[0] as int - '0' as int) * 1000 + (s[1] as int - '0' as int) * 100
                    + (s[2] as int - '0' as int) * 10 + (s[3] as int - '0' as int)
      && dt.month == (s[5] as int - '0' as int) * 10 + (s[6] as int - '0' as int)
      && dt.day == (s[8] as int - '0' as int) * 10 + (s[9] as int - '0' as int)
      && dt.hour == (s[11] as int - '0' as int) * 10 + (s[12] as int - '0' as int)
      && dt.minute == (s[14] as int - '0' as int) * 10 + (s[15] as int - '0' as int)
      && dt.second == (s[17] as int - '0' as int) * 10 + (s[18] as int - '0' as int)
  {
    FourDigits(s[0..4]);
    TwoDigits(s[5..7]);
    TwoDigits(s[8..10]);
    TwoDigits(s[11..13]);
    TwoDigits(s[14..16]);
    TwoDigits(s[17..19]);
  }

  /** A timestamp whose characters sit in the input layout has that layout. */
  lemma LayoutOf(s: string)
    requires |s| == 19 && s[4] == '/' && s[7] == '/' && s[10] == ' ' && s[13] == ':' && s[16] == ':'
    requires forall i | 0 <= i < 19 && i !in {4, 7, 10, 13, 16} :: Timestamp.IsDigit(s[i])
    ensures Timestamp.HasLayout(s, '/', ' ')
  {
  }

  lemma ParsesTo(s: string, dt: Timestamp.DateTime)
    requires Timestamp.HasLayout(s, '/', ' ') && Timestamp.Fields(s, '/', ' ') == dt && Timestamp.IsValid(dt)
    ensures Timestamp.ParseInput(s) == Some(dt)
  {
  }

  /** The first date of the source's unit test is a valid timestamp. */
  lemma FirstDateFields(s: string)
    requires s == "2014/02/03 03:40:00"
    ensures Timestamp.HasLayout(s, '/', ' ') && Timestamp.Fields(s, '/', ' ') == Timestamp.DateTime(2014, 2, 3, 3, 40, 0)
  {
    LayoutOf(s);
    FieldsOf(s);
  }

  lemma FirstDateParses(s: string)
    requires s == "2014/02/03 03:40:00"
    ensures Timestamp.ParseInput(s) == Some(Timestamp.DateTime(2014, 2, 3, 3, 40, 0))
  {
    FirstDateFields(s);
    ParsesTo(s, Timestamp.DateTime(2014, 2, 3, 3, 40, 0));
  }

  lemma FirstDateSwapped(s: string)
    requires s == "2014/02/03 03:40:00"
    ensures s[..4] + "-" + s[5..7] + "-" + s[8..10] + "T" + s[11..] == "2014-02-03T03:40:00"
  {
    assert s[..4] == "2014" && s[5..7] == "02" && s[8..10] == "03" && s[11..] == "03:40:00";
  }

  lemma FirstDateReformat(s: string)
    requires s == "2014/02/03 03:40:00"
    ensures Timestamp.ReformatDate(s) == Some("2014-02-03T03:40:00")
  {
    FirstDateParses(s);
    Timestamp.ReformatChangesOnlySeparators(s);
    FirstDateSwapped(s);
  }

  /** The second date of the source's unit test is a valid timestamp. */
  lemma SecondDateFields(s: string)
    requires s == "2014/12/03 15:32:00"
    ensures Timestamp.HasLayout(s, '/', ' ') && Timestamp.Fields(s, '/', ' ') == Timestamp.DateTime(2014, 12, 3, 15, 32, 0)
  {
    LayoutOf(s);
    FieldsOf(s);
  }

  lemma SecondDateParses(s: string)
    requires s == "2014/12/03 15:32:00"
    ensures Timestamp.ParseInput(s) == Some(Timestamp.DateTime(2014, 12, 3, 15, 32, 0))
  {
    SecondDateFields(s);
    ParsesTo(s, Timestamp.DateTime(2014, 12, 3, 15, 32, 0));
  }

  lemma SecondDateSwapped(s: string)
    requires s == "2014/12/03 15:32:00"
    ensures s[..4] + "-" + s[5..7] + "-" + s[8..10] + "T" + s[11..] == "2014-12-03T15:32:00"
  {
    assert s[..4] == "2014" && s[5..7] == "12" && s[8..10] == "03" && s[11..] == "15:32:00";
  }

  lemma SecondDateReformat(s: string)
    requires s == "2014/12/03 15:32:00"
    ensures Timestamp.ReformatDate(s) == Some("2014-12-03T15:32:00")
  {
    SecondDateParses(s);
    Timestamp.ReformatChangesOnlySeparators(s);
    SecondDateSwapped(s);
  }

  /** A commit row of the unit test: its four lines under the `taro` identity. */
  lemma TestCommitRow(r: Record, date: string, dir: string, message: string, out: string)
    requires r.kind == "commit" && r.arg1 == Some(date) && r.arg2 == Some("taro")
    requires r.arg3 == Some(dir) && r.arg4 == Some(message)
    requires Timestamp.ReformatDate(date) == Some(out)
    ensures RowLines(r, DefaultUsers) == Ok([
      WipeLine, "cp -r " + dir + "/. .", StageLine,
      CommitLine(User("Test Test", "test.test@example.com"), out, message)])
  {
    assert Lower(r.kind) == "commit";
    assert "taro" in DefaultUsers;
    assert CopyLine(dir) == "cp -r " + dir + "/. .";
  }

  lemma TestTagRow(r: Record)
    requires r == Record("tag", None, None, None, Some("docs/ios/1.0.0"))
    ensures RowLines(r, DefaultUsers) == Ok(["git tag docs/ios/1.0.0"])
  {
    assert Lower(r.kind) == "tag";
    assert "git tag " + r.arg4.value == "git tag docs/ios/1.0.0";
  }

  lemma FirstCopy(dir: string)
    requires dir == "../input/1"
    ensures "cp -r " + dir + "/. ." == "cp -r ../input/1/. ."
  {
  }

  lemma SecondCopy(dir: string)
    requires dir == "../input/2"
    ensures "cp -r " + dir + "/. ." == "cp -r ../input/2/. ."
  {
  }

  lemma FirstTestRow(r: Record, taro: User, date: string)
    requires r == Record("commit", Some("2014/02/03 03:40:00"), Some("taro"), Some("../input/1"), Some("test"))
    requires taro == User("Test Test", "test.test@example.com") && date == "2014-02-03T03:40:00"
    ensures RowLines(r, DefaultUsers) == Ok([WipeLine, "cp -r ../input/1/. .", StageLine, CommitLine(taro, date, "test")])
  {
    FirstDateReformat(r.arg1.value);
    TestCommitRow(r, r.arg1.value, r.arg3.value, r.arg4.value, date);
    FirstCopy(r.arg3.value);
  }

  lemma SecondTestRow(r: Record, taro: User, date: string)
    requires r == Record("commit", Some("2014/12/03 15:32:00"), Some("taro"), Some("../input/2"), Some("test2"))
    requires taro == User("Test Test", "test.test@example.com") && date == "2014-12-03T15:32:00"
    ensures RowLines(r, DefaultUsers) == Ok([WipeLine, "cp -r ../input/2/. .", StageLine, CommitLine(taro, date, "test2")])
  {
    SecondDateReformat(r.arg1.value);
    TestCommitRow(r, r.arg1.value, r.arg3.value, r.arg4.value, date);
    SecondCopy(r.arg3.value);
  }

  lemma CollectThree(outs: seq<Result<seq<string>, Error>>, a: seq<string>, b: seq<string>, c: seq<string>)
    requires outs == [Ok(a), Ok(b), Ok(c)]
    ensures Collect(outs) == Ok(a + b + c)
  {
    var one, two := outs[..1], outs[..2];
    assert one[..0] == [];
    assert Collect(one) == Ok([] + a);
    assert [] + a == a;
    assert two[..1] == one && two[1] == Ok(b);
    assert Collect(two) == Ok(a + b);
    assert outs[..2] == two;
  }

  /** Three rows that each succeed contribute their lines in order. */
  lemma ThreeRowBody(rs: seq<Record>, users: Registry, a: seq<string>, b: seq<string>, c: seq<string>)
    requires |rs| == 3
    requires RowLines(rs[0], users) == Ok(a) && RowLines(rs[1], users) == Ok(b) && RowLines(rs[2], users) == Ok(c)
    ensures BodyLines(rs, users) == Ok(a + b + c)
  {
    var outs := RowResults(rs, users);
    assert outs == [Ok(a), Ok(b), Ok(c)];
    CollectThree(outs, a, b, c);
  }

  lemma ScriptOfBody(rs: seq<Record>, users: Registry, body: seq<string>)
    requires BodyLines(rs, users) == Ok(body)
    ensures ScriptLines(false, rs, users) == Ok(["mkdir out", "pushd out", "git init"] + body + ["popd"])
  {
    assert "mkdir " + OutputDir == "mkdir out";
    assert "pushd " + OutputDir == "pushd out";
  }

  lemma ConcatRegroup(h: seq<string>, a: seq<string>, b: seq<string>, c: seq<string>, f: seq<string>)
    ensures h + (a + b + c) + f == h + a + b + c + f
  {
    assert a + b + c == a + (b + c);
  }

  /** The records of the source's unit test give the header, four lines per
      commit with the reformatted dates and the `taro` identity, the tag line,
      and the footer, in that order. */
  lemma SourceTestScenario(first: Record, second: Record, tag: Record, taro: User, date1: string, date2: string)
    requires first == Record("commit", Some("2014/02/03 03:40:00"), Some("taro"), Some("../input/1"), Some("test"))
    requires second == Record("commit", Some("2014/12/03 15:32:00"), Some("taro"), Some("../input/2"), Some("test2"))
    requires tag == Record("tag", None, None, None, Some("docs/ios/1.0.0"))
    requires taro == User("Test Test", "test.test@example.com")
    requires date1 == "2014-02-03T03:40:00" && date2 == "2014-12-03T15:32:00"
    ensures ScriptLines(false, [first, second, tag], DefaultUsers) == Ok(
      ["mkdir out", "pushd out", "git init"]
      + [WipeLine, "cp -r ../input/1/. .", StageLine, CommitLine(taro, date1, "test")]
      + [WipeLine, "cp -r ../input/2/. .", StageLine, CommitLine(taro, date2, "test2")]
      + ["git tag docs/ios/1.0.0"]
      + ["popd"])
  {
    var wipe, stage := WipeLine, StageLine;
    var row1 := [wipe, "cp -r ../input/1/. .", stage, CommitLine(taro, date1, "test")];
    var row2 := [wipe, "cp -r ../input/2/. .", stage, CommitLine(taro, date2, "test2")];
    var row3 := ["git tag docs/ios/1.0.0"];
    FirstTestRow(first, taro, date1);
    SecondTestRow(second, taro, date2);
    TestTagRow(tag);
    ThreeRowBody([first, second, tag], DefaultUsers, row1, row2, row3);
    ScriptOfBody([first, second, tag], DefaultUsers, row1 + row2 + row3);
    ConcatRegroup(["mkdir out", "pushd out", "git init"], row1, row2, row3, ["popd"]);
  }
}
