/**
 * The OpenAI key setting (backend/setting.go): `SaveOpenAIKey` rewrites the lines of `.env`
 * so that every `OPENAI_API_KEY=` line carries the new key, and `GetOpenAIKey` reads the value
 * of the first such line. The file system is reduced to what reading `.env` gave (`EnvFile`)
 * and whether the write succeeded; the model works on the text.
 */
module Settings {
  import opened Wrappers
  import opened Text

  const KeyPrefix: string := "OPENAI_API_KEY="

  /** The outcome of `os.ReadFile(".env")`. */
  datatype EnvFile = Missing | Unreadable | Present(content: string)

  datatype SettingError = ReadFailed | WriteFailed

  function KeyLine(key: string): string
  {
    KeyPrefix + key
  }

  predicate IsKeyLine(line: string)
  {
    HasPrefix(line, KeyPrefix)
  }

  predicate HasKeyLine(lines: seq<string>)
  {
    exists i :: 0 <= i < |lines| && IsKeyLine(lines[i])
  }

  /** What one line of `.env` becomes in the rewrite loop: the key line, itself, or nothing. */
  function RewriteLine(line: string, key: string): seq<string>
  {
    if IsKeyLine(line) then [KeyLine(key)]
    else if line != "" then [line]
    else []
  }

  /** The loop of setting.go:37-44 over `lines`, written from the last line back. */
  function Rewritten(lines: seq<string>, key: string): seq<string>
  {
    if lines == [] then []
    else Rewritten(lines[..|lines| - 1], key) + RewriteLine(lines[|lines| - 1], key)
  }

  /** `newLines` once the key line has been appended when no line had the prefix. */
  function NewLines(lines: seq<string>, key: string): seq<string>
  {
    Rewritten(lines, key) + (if HasKeyLine(lines) then [] else [KeyLine(key)])
  }

  /** The content `SaveOpenAIKey` writes over an existing `.env`. */
  function RewriteEnv(content: string, key: string): string
  {
    Join(NewLines(Split(content), key))
  }

  /** The content `SaveOpenAIKey` writes when there is no `.env` yet. */
  function FreshEnv(key: string): string
  {
    KeyPrefix + key + "\n"
  }

  /** setting.go:11-55. On success the result carries the content written to `.env`. */
  method SaveOpenAIKey(file: EnvFile, key: string, writeOk: bool) returns (r: Result<string, SettingError>)
    ensures file.Unreadable? ==> r == Err(ReadFailed)
    ensures !file.Unreadable? && !writeOk ==> r == Err(WriteFailed)
    ensures file.Missing? && writeOk ==> r == Ok(FreshEnv(key))
    ensures file.Present? && writeOk ==> r == Ok(RewriteEnv(file.content, key))
  {
    if file.Unreadable? {
      return Err(ReadFailed);
    }
    if file.Missing? {
      if !writeOk {
        return Err(WriteFailed);
      }
      return Ok(KeyPrefix + key + "\n");
    }
    var lines := Split(file.content);
    var keyFound := false;
    var newLines: seq<string> := [];
    var i := 0;
    while i < |lines|
      invariant 0 <= i <= |lines|
      invariant newLines == Rewritten(lines[..i], key)
      invariant keyFound <==> HasKeyLine(lines[..i])
    {
      var line := lines[i];
      assert lines[..i + 1][..i] == lines[..i];
      assert Rewritten(lines[..i + 1], key) == Rewritten(lines[..i], key) + RewriteLine(line, key);
      if HasPrefix(line, KeyPrefix) {
        newLines := newLines + [KeyPrefix + key];
        keyFound := true;
      } else if line != "" {
        newLines := newLines + [line];
      }
      assert HasKeyLine(lines[..i + 1]) <==> HasKeyLine(lines[..i]) || IsKeyLine(line) by {
        if HasKeyLine(lines[..i + 1]) && !IsKeyLine(line) {
          var j :| 0 <= j < i + 1 && IsKeyLine(lines[..i + 1][j]);
          assert j < i && lines[..i][j] == lines[..i + 1][j];
        }
        if IsKeyLine(line) { assert lines[..i + 1][i] == line; }
        if HasKeyLine(lines[..i]) {
          var j :| 0 <= j < i && IsKeyLine(lines[..i][j]);
          assert lines[..i + 1][j] == lines[..i][j];
        }
      }
      i := i + 1;
    }
    assert lines[..i] == lines;
    if !keyFound {
      newLines := newLines + [KeyPrefix + key];
    }
    assert newLines == NewLines(lines, key);
    if !writeOk {
      return Err(WriteFailed);
    }
    return Ok(Join(newLines));
  }

  /** Line `i` is the first line of `lines` that has the key prefix. */
  predicate FirstKeyLineAt(lines: seq<string>, i: int)
  {
    && 0 <= i < |lines|
    && IsKeyLine(lines[i])
    && forall j :: 0 <= j < i ==> !IsKeyLine(lines[j])
  }

  /** The value after the prefix on the first key line, if any (setting.go:68-74). */
  function FirstKey(lines: seq<string>): (r: Option<string>)
    ensures r.None? <==> !HasKeyLine(lines)
    ensures r.Some? ==> exists i :: FirstKeyLineAt(lines, i) && KeyPrefix + r.value == lines[i]
  {
    if lines == [] then None
    else if IsKeyLine(lines[0]) then
      assert FirstKeyLineAt(lines, 0);
      Some(TrimPrefix(lines[0], KeyPrefix))
    else
      var r := FirstKey(lines[1..]);
      if r.Some? then
        var i :| FirstKeyLineAt(lines[1..], i) && KeyPrefix + r.value == lines[1..][i];
        assert FirstKeyLineAt(lines, i + 1);
        r
      else
        assert !HasKeyLine(lines) by {
          forall j | 0 <= j < |lines| ensures !IsKeyLine(lines[j]) {
            if j > 0 { assert lines[j] == lines[1..][j - 1]; }
          }
        }
        r
  }

  /** setting.go:57-77: "" when there is no `.env` or no key line. */
  function GetOpenAIKey(file: EnvFile): (r: Result<string, SettingError>)
    ensures file.Unreadable? <==> r.Err?
    ensures file.Missing? ==> r == Ok("")
    ensures file.Present? && !HasKeyLine(Split(file.content)) ==> r == Ok("")
    ensures file.Present? && HasKeyLine(Split(file.content)) ==>
      exists i :: FirstKeyLineAt(Split(file.content), i) && KeyPrefix + r.value == Split(file.content)[i]
  {
    match file
    case Missing => Ok("")
    case Unreadable => Err(ReadFailed)
    case Present(content) =>
      match FirstKey(Split(content))
      case None => Ok("")
      case Some(v) => Ok(v)
  }

  // ---------------------------------------------------------------------------------------
  // Properties of the rewrite

  /** Lines of `.env` other than key lines and blank lines. */
  function Others(lines: seq<string>): seq<string>
  {
    if lines == [] then []
    else
      var last := lines[|lines| - 1];
      Others(lines[..|lines| - 1]) + (if IsKeyLine(last) || last == "" then [] else [last])
  }

  /** Number of key lines. */
  function KeyLines(lines: seq<string>): nat
  {
    if lines == [] then 0
    else KeyLines(lines[..|lines| - 1]) + (if IsKeyLine(lines[|lines| - 1]) then 1 else 0)
  }

  lemma KeyLineIsKeyLine(key: string)
    ensures IsKeyLine(KeyLine(key))
  {
    assert KeyLine(key)[..|KeyPrefix|] == KeyPrefix;
  }

  lemma {:induction false} OthersAppend(a: seq<string>, b: seq<string>)
    ensures Others(a + b) == Others(a) + Others(b)
    ensures KeyLines(a + b) == KeyLines(a) + KeyLines(b)
    decreases |b|
  {
    if b == [] {
      assert a + b == a;
    } else {
      var b' := b[..|b| - 1];
      assert (a + b)[..|a + b| - 1] == a + b';
      assert (a + b)[|a + b| - 1] == b[|b| - 1];
      OthersAppend(a, b');
    }
  }

  /**
   * The rewrite keeps the other non-empty lines in their order and drops empty lines, and
   * puts out one key line for each key line it reads (setting.go:37-44).
   */
  lemma {:induction false} RewrittenKeepsOthers(lines: seq<string>, key: string)
    ensures Others(Rewritten(lines, key)) == Others(lines)
    ensures KeyLines(Rewritten(lines, key)) == KeyLines(lines)
    decreases |lines|
  {
    if lines != [] {
      var init := lines[..|lines| - 1];
      var last := lines[|lines| - 1];
      var step := RewriteLine(last, key);
      RewrittenKeepsOthers(init, key);
      OthersAppend(Rewritten(init, key), step);
      KeyLineIsKeyLine(key);
      if |step| == 1 {
        assert step[..0] == [];
        assert step[0] == KeyLine(key) || step[0] == last;
      }
    }
  }

  /** Every line the rewrite puts out is non-empty, and every key line in it carries `key`. */
  lemma {:induction false} RewrittenLines(lines: seq<string>, key: string)
    ensures forall k :: 0 <= k < |Rewritten(lines, key)| ==> Rewritten(lines, key)[k] != ""
    ensures forall k :: 0 <= k < |Rewritten(lines, key)| && IsKeyLine(Rewritten(lines, key)[k]) ==>
      Rewritten(lines, key)[k] == KeyLine(key)
    decreases |lines|
  {
    if lines != [] {
      var init := lines[..|lines| - 1];
      var step := RewriteLine(lines[|lines| - 1], key);
      RewrittenLines(init, key);
      assert KeyPrefix != "";
      assert Rewritten(lines, key) == Rewritten(init, key) + step;
    }
  }

  lemma {:induction false} KeyLinesPositive(lines: seq<string>)
    ensures HasKeyLine(lines) <==> KeyLines(lines) > 0
    decreases |lines|
  {
    if lines != [] {
      var init := lines[..|lines| - 1];
      KeyLinesPositive(init);
      if HasKeyLine(lines) && !IsKeyLine(lines[|lines| - 1]) {
        var j :| 0 <= j < |lines| && IsKeyLine(lines[j]);
        assert init[j] == lines[j];
      }
      if HasKeyLine(init) {
        var j :| 0 <= j < |init| && IsKeyLine(init[j]);
        assert lines[j] == init[j];
      }
    }
  }

  /**
   * The new key line is appended at the end exactly when no line had the prefix; either way
   * the result has a key line, every key line carries the new key and no line is empty
   * (setting.go:47-50).
   */
  lemma NewLinesShape(lines: seq<string>, key: string)
    ensures !HasKeyLine(lines) <==> NewLines(lines, key) == Rewritten(lines, key) + [KeyLine(key)]
    ensures HasKeyLine(NewLines(lines, key))
    ensures Others(NewLines(lines, key)) == Others(lines)
    ensures forall k :: 0 <= k < |NewLines(lines, key)| ==>
      NewLines(lines, key)[k] != "" && (IsKeyLine(NewLines(lines, key)[k]) ==> NewLines(lines, key)[k] == KeyLine(key))
  {
    var rw := Rewritten(lines, key);
    RewrittenKeepsOthers(lines, key);
    RewrittenLines(lines, key);
    KeyLineIsKeyLine(key);
    KeyLinesPositive(lines);
    KeyLinesPositive(rw);
    if !HasKeyLine(lines) {
      OthersAppend(rw, [KeyLine(key)]);
      assert [KeyLine(key)][..0] == [];
      assert NewLines(lines, key)[|rw|] == KeyLine(key);
    } else {
      assert NewLines(lines, key) == rw;
    }
  }

  /** Every line of the written content has no newline. */
  lemma NewLinesNoNewline(content: string, key: string)
    requires NoNewline(key)
    ensures forall k :: 0 <= k < |NewLines(Split(content), key)| ==> NoNewline(NewLines(Split(content), key)[k])
  {
    var lines := Split(content);
    var out := NewLines(lines, key);
    SplitPiecesHaveNoNewline(content);
    RewrittenLinesFrom(lines, key);
    assert NoNewline(KeyLine(key)) by {
      forall i | 0 <= i < |KeyLine(key)| ensures KeyLine(key)[i] != '\n' {
        if i >= |KeyPrefix| { assert KeyLine(key)[i] == key[i - |KeyPrefix|]; }
      }
    }
  }

  /** Each line of the rewrite is either the key line or one of the input lines. */
  lemma {:induction false} RewrittenLinesFrom(lines: seq<string>, key: string)
    ensures forall k :: 0 <= k < |Rewritten(lines, key)| ==>
      Rewritten(lines, key)[k] == KeyLine(key) || Rewritten(lines, key)[k] in lines
    decreases |lines|
  {
    if lines != [] {
      var init := lines[..|lines| - 1];
      RewrittenLinesFrom(init, key);
      forall k | 0 <= k < |Rewritten(lines, key)|
        ensures Rewritten(lines, key)[k] == KeyLine(key) || Rewritten(lines, key)[k] in lines
      {
        if k < |Rewritten(init, key)| {
          var l := Rewritten(init, key)[k];
          assert l == KeyLine(key) || l in init;
          if l in init { var j :| 0 <= j < |init| && init[j] == l; assert lines[j] == l; }
        }
      }
    }
  }

  /** A list that has a key line and whose key lines all carry `key` yields `key`. */
  lemma FirstKeyOfRewritten(lines: seq<string>, key: string)
    requires HasKeyLine(lines)
    requires forall k :: 0 <= k < |lines| && IsKeyLine(lines[k]) ==> lines[k] == KeyLine(key)
    ensures FirstKey(lines) == Some(key)
  {
    var r := FirstKey(lines);
    var i :| FirstKeyLineAt(lines, i) && KeyPrefix + r.value == lines[i];
    assert KeyPrefix + r.value == KeyPrefix + key;
    assert r.value == (KeyPrefix + r.value)[|KeyPrefix|..];
  }

  /** Round trip: with no `.env`, reading back what `SaveOpenAIKey` wrote gives the key. */
  lemma SaveThenGetFresh(key: string)
    requires NoNewline(key)
    ensures GetOpenAIKey(Present(FreshEnv(key))) == Ok(key)
  {
    var content := FreshEnv(key);
    assert content == KeyLine(key) + "\n" + "";
    assert NoNewline(KeyLine(key)) by {
      forall i | 0 <= i < |KeyLine(key)| ensures KeyLine(key)[i] != '\n' {
        if i >= |KeyPrefix| { assert KeyLine(key)[i] == key[i - |KeyPrefix|]; }
      }
    }
    SplitAfterLine(KeyLine(key), "");
    var lines := Split(content);
    assert lines == [KeyLine(key), ""];
    KeyLineIsKeyLine(key);
    assert !IsKeyLine("");
    assert IsKeyLine(lines[0]);
    FirstKeyOfRewritten(lines, key);
  }

  /** Round trip: over an existing `.env`, reading back what `SaveOpenAIKey` wrote gives the key. */
  lemma SaveThenGet(content: string, key: string)
    requires NoNewline(key)
    ensures GetOpenAIKey(Present(RewriteEnv(content, key))) == Ok(key)
  {
    var out := NewLines(Split(content), key);
    NewLinesShape(Split(content), key);
    NewLinesNoNewline(content, key);
    SplitJoin(out);
    FirstKeyOfRewritten(out, key);
  }

  /** The rewrite leaves alone a list of non-empty lines whose key lines already carry `key`. */
  lemma {:induction false} RewrittenFixed(lines: seq<string>, key: string)
    requires forall k :: 0 <= k < |lines| ==> lines[k] != "" && (IsKeyLine(lines[k]) ==> lines[k] == KeyLine(key))
    ensures Rewritten(lines, key) == lines
    decreases |lines|
  {
    if lines != [] {
      RewrittenFixed(lines[..|lines| - 1], key);
      assert lines == lines[..|lines| - 1] + [lines[|lines| - 1]];
    }
  }

  /** Idempotence: saving the same key twice over an existing `.env` writes the same content. */
  lemma RewriteIdempotent(content: string, key: string)
    requires NoNewline(key)
    ensures RewriteEnv(RewriteEnv(content, key), key) == RewriteEnv(content, key)
  {
    var out := NewLines(Split(content), key);
    NewLinesShape(Split(content), key);
    NewLinesNoNewline(content, key);
    SplitJoin(out);
    RewrittenFixed(out, key);
    assert NewLines(out, key) == out;
  }

  /** The content written over an existing `.env` does not end with a newline. */
  lemma RewriteHasNoTrailingNewline(content: string, key: string)
    requires NoNewline(key)
    ensures |RewriteEnv(content, key)| > 0
    ensures RewriteEnv(content, key)[|RewriteEnv(content, key)| - 1] != '\n'
  {
    var out := NewLines(Split(content), key);
    NewLinesShape(Split(content), key);
    NewLinesNoNewline(content, key);
    JoinLastChar(out);
  }

  lemma {:induction false} JoinLastChar(lines: seq<string>)
    requires |lines| >= 1
    requires forall k :: 0 <= k < |lines| ==> lines[k] != "" && NoNewline(lines[k])
    ensures |Join(lines)| > 0 && Join(lines)[|Join(lines)| - 1] != '\n'
    decreases |lines|
  {
    if |lines| > 1 {
      JoinLastChar(lines[1..]);
      var j := Join(lines);
      assert j == lines[0] + "\n" + Join(lines[1..]);
      assert j[|j| - 1] == Join(lines[1..])[|Join(lines[1..])| - 1];
    } else {
      assert lines[0][|lines[0]| - 1] != '\n';
    }
  }
}
