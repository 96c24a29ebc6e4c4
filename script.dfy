/** What `csv2sh` produces, stated as functions over lines: the fixed header,
    the lines each command record contributes, the footer, and the error that
    ends generation instead. */
module Script {
  import opened Wrappers
  import opened Users
  import Timestamp

  /** One row of the command table, already read by the CSV reader: the
      command kind and the four optional arguments (an empty field is `None`). */
  datatype Record = Record(kind: string, arg1: Option<string>, arg2: Option<string>,
                           arg3: Option<string>, arg4: Option<string>)

  /** Why no script is returned. `OutDirExists` and `UnknownCommand` are the
      two `Err` values the source returns; the other three stand for the
      panics of its `unwrap` calls (a missing argument, a timestamp that does
      not parse, a user key that is not in the registry). */
  datatype Error =
    | OutDirExists(dir: string)
    | UnknownCommand(kind: string)
    | MissingField(field: nat)
    | InvalidTimestamp(text: string)
    | UnknownUser(key: string)

  const OutputDir := "out"
  const WipeLine := "find . -not -path './.git*' -not -path '.' -print0 | xargs -0 rm -rf"
  const StageLine := "git add -A"
  const HeaderLines: seq<string> := ["mkdir " + OutputDir, "pushd " + OutputDir, "git init"]
  const FooterLines: seq<string> := ["popd"]

  /** ASCII lower-casing of the command kind (`to_lowercase`). */
  function LowerChar(c: char): char
  {
    if 'A' <= c <= 'Z' then (c as int - 'A' as int + 'a' as int) as char else c
  }

  function Lower(s: string): string
  {
    seq(|s|, i requires 0 <= i < |s| => LowerChar(s[i]))
  }

  /** `cp -r {input} .` where `input` is ARG3 with `/.` appended. */
  function CopyLine(dir: string): string
  {
    "cp -r " + (dir + "/.") + " ."
  }

  /** The commit line, with the six environment overrides in the order the
      source writes them and the message unquoted after `-m`. */
  function CommitLine(user: User, date: string, comment: string): string
  {
    "GIT_COMMITTER_NAME=\"" + user.name + "\" GIT_COMMITTER_EMAIL=\"" + user.mail
    + "\" GIT_COMMITTER_DATE=\"" + date + "\" GIT_AUTHOR_NAME=\"" + user.name
    + "\" GIT_AUTHOR_EMAIL=\"" + user.mail + "\" GIT_AUTHOR_DATE=\"" + date
    + "\" git commit -m " + comment
  }

  /** The lines of a `commit` record, or the first failure in the order the
      source evaluates the record: ARG1, its timestamp, ARG2, the user lookup,
      ARG3, ARG4. */
  function CommitLines(r: Record, users: Registry): Result<seq<string>, Error>
  {
    if r.arg1.None? then Err(MissingField(1))
    else match Timestamp.ReformatDate(r.arg1.value)
      case None => Err(InvalidTimestamp(r.arg1.value))
      case Some(date) =>
        if r.arg2.None? then Err(MissingField(2))
        else if r.arg2.value !in users then Err(UnknownUser(r.arg2.value))
        else if r.arg3.None? then Err(MissingField(3))
        else if r.arg4.None? then Err(MissingField(4))
        else Ok([WipeLine, CopyLine(r.arg3.value), StageLine,
                 CommitLine(users[r.arg2.value], date, r.arg4.value)])
  }

  /** The line of a `tag` record. */
  function TagLines(r: Record): Result<seq<string>, Error>
  {
    if r.arg4.None? then Err(MissingField(4)) else Ok(["git tag " + r.arg4.value])
  }

  /** Dispatch on the lower-cased kind; any other kind is an error naming the
      kind as written. */
  function RowLines(r: Record, users: Registry): Result<seq<string>, Error>
  {
    var kind := Lower(r.kind);
    if kind == "commit" then CommitLines(r, users)
    else if kind == "tag" then TagLines(r)
    else Err(UnknownCommand(r.kind))
  }

  /** Each record's outcome, in input order. */
  function RowResults(rs: seq<Record>, users: Registry): (outs: seq<Result<seq<string>, Error>>)
    ensures |outs| == |rs|
    ensures forall i :: 0 <= i < |rs| ==> outs[i] == RowLines(rs[i], users)
  {
    seq(|rs|, i requires 0 <= i < |rs| => RowLines(rs[i], users))
  }

  /** The accumulation of the `for` loop: the outcomes are taken front to
      back, lines are appended, and the first error ends the pass. */
  function Collect(outs: seq<Result<seq<string>, Error>>): Result<seq<string>, Error>
    decreases |outs|
  {
    if outs == [] then Ok([])
    else match Collect(outs[..|outs| - 1])
      case Err(e) => Err(e)
      case Ok(prev) =>
        match outs[|outs| - 1]
        case Err(e) => Err(e)
        case Ok(lines) => Ok(prev + lines)
  }

  /** The lines of all records. */
  function BodyLines(rs: seq<Record>, users: Registry): Result<seq<string>, Error>
  {
    Collect(RowResults(rs, users))
  }

  /** The lines of the whole script; the output-directory check comes first. */
  function ScriptLines(outDirExists: bool, rs: seq<Record>, users: Registry): Result<seq<string>, Error>
  {
    if outDirExists then Err(OutDirExists(OutputDir))
    else match BodyLines(rs, users)
      case Err(e) => Err(e)
      case Ok(body) => Ok(HeaderLines + body + FooterLines)
  }

  /** Lines joined into text, each one terminated by a newline. */
  function Unlines(ls: seq<string>): string
    decreases |ls|
  {
    if ls == [] then "" else Unlines(ls[..|ls| - 1]) + ls[|ls| - 1] + "\n"
  }

  /** `csv2sh`: the script text, or the error that replaces it. */
  function Generate(outDirExists: bool, rs: seq<Record>, users: Registry): Result<string, Error>
  {
    match ScriptLines(outDirExists, rs, users)
    case Err(e) => Err(e)
    case Ok(ls) => Ok(Unlines(ls))
  }
}
