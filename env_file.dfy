/** `loadEnvFile` of ecosystem.config.cjs: the `.env` reader that builds the
    environment handed to the process supervisor. Reading the file is outside
    the model: the input is its text, or `None` when the file does not exist. */
module EnvFile {
  import opened Wrappers
  import opened Strings

  /** The environment every result starts from. */
  function Base(): map<string, string> { map["NODE_ENV" := "production"] }

  /** The placeholder value a template `.env` carries; it is never loaded. */
  const Placeholder: string := "your_value_here"

  /** `value.slice(1, -1)`. */
  function SliceInner(v: string): string {
    if |v| >= 2 then v[1..|v| - 1] else ""
  }

  predicate Quoted(v: string) {
    (StartsWith(v, "\"") && EndsWith(v, "\"")) || (StartsWith(v, "'") && EndsWith(v, "'"))
  }

  /** Strips one pair of matching surrounding quotes, and only one. */
  function Unquote(v: string): string {
    if Quoted(v) then SliceInner(v) else v
  }

  /** An unquoted value is the input with exactly its outer matching pair of
      quotes removed, or the input itself when it is not quoted. */
  lemma UnquoteStripsOnePair(v: string)
    ensures !Quoted(v) ==> Unquote(v) == v
    ensures Quoted(v) && |v| >= 2 ==> |Unquote(v)| == |v| - 2 && v == [v[0]] + Unquote(v) + [v[0]]
    ensures Quoted(v) && |v| < 2 ==> Unquote(v) == ""
  {
  }

  /** A value that is loaded: neither empty nor the placeholder. */
  predicate Kept(v: string) { v != "" && v != Placeholder }

  /** The `KEY=VALUE` pair a line denotes (value already unquoted), if any. */
  function LineEntry(line: string): Option<(string, string)> {
    TrimmedEntry(Trim(line))
  }

  /** The pair an already trimmed line denotes: none for a blank or comment
      line or one without a key before its first "=". */
  function TrimmedEntry(t: string): Option<(string, string)> {
    if t == "" || StartsWith(t, "#") then None
    else
      var eq := IndexOf(t, '=');
      if eq <= 0 then None
      else Some((Trim(t[..eq]), Unquote(Trim(t[eq + 1..]))))
  }

  /** Blank lines, comment lines and lines without a key before "=" denote
      nothing; any key a line denotes is non-empty and free of "=". */
  lemma LineEntryFacts(line: string)
    ensures Trim(line) == "" || StartsWith(Trim(line), "#") ==> LineEntry(line).None?
    ensures IndexOf(Trim(line), '=') <= 0 ==> LineEntry(line).None?
    ensures LineEntry(line).Some? ==> LineEntry(line).value.0 != "" && '=' !in LineEntry(line).value.0
  {
    var t := Trim(line);
    if !(t == "" || StartsWith(t, "#")) && IndexOf(t, '=') > 0 {
      var eq := IndexOf(t, '=');
      TrimEndsNotSpace(line);
      TrimKeepsFirst(t[..eq]);
      TrimInfix(t[..eq]);
    }
  }

  /** Every character of a trimmed string comes from the input. */
  lemma TrimInfix(s: string)
    ensures forall c :: c in Trim(s) ==> c in s
  {
    var r := Trim(s);
    TrimIsInfix(s);
    var i, j :| 0 <= i <= j <= |s| && r == s[i..j];
    forall c | c in r ensures c in s {
      var k :| 0 <= k < |r| && r[k] == c;
      assert s[i + k] == c;
    }
  }

  /** What one line contributes: the pair it assigns, or nothing. */
  type Entry = Option<(string, string)>

  /** `f` applied to every element, in order. */
  function MapSeq<A, B>(f: A -> B, s: seq<A>): (r: seq<B>)
    ensures |r| == |s|
  {
    if |s| == 0 then [] else MapSeq(f, s[..|s| - 1]) + [f(s[|s| - 1])]
  }

  /** The entry of every line of the file, in file order. */
  function Entries(lines: seq<string>): (es: seq<Entry>)
    ensures |es| == |lines|
  {
    MapSeq(LineEntry, lines)
  }

  /** `env[key] = value` for a kept assignment. */
  function ApplyEntry(env: map<string, string>, e: Entry): map<string, string> {
    match e
    case Some((k, v)) => if Kept(v) then env[k := v] else env
    case None => env
  }

  /** The environment after applying the entries in file order. */
  function EnvOf(es: seq<Entry>): map<string, string> {
    if |es| == 0 then Base() else ApplyEntry(EnvOf(es[..|es| - 1]), es[|es| - 1])
  }

  /** The result of `loadEnvFile()` for the given file contents. */
  function EnvOfFile(file: Option<string>): map<string, string> {
    match file
    case None => Base()
    case Some(text) => EnvOf(Entries(Split(text, '\n')))
  }

  /** `loadEnvFile`, as the source writes it: a loop over the lines that
      updates `env` in place, with `continue` for blank and comment lines. */
  method LoadEnvFile(file: Option<string>) returns (env: map<string, string>)
    ensures env == EnvOfFile(file)
  {
    env := map["NODE_ENV" := "production"];
    if file.Some? {
      var lines := Split(file.value, '\n');
      for n := 0 to |lines|
        invariant env == EnvOf(Entries(lines[..n]))
      {
        EntriesStep(lines, n);
        ghost var before := env;
        var trimmedLine := Trim(lines[n]);
        assert EnvOf(Entries(lines[..n + 1])) == ApplyEntry(before, TrimmedEntry(trimmedLine));
        if trimmedLine == "" || StartsWith(trimmedLine, "#") {
          assert TrimmedEntry(trimmedLine) == None;
          continue;
        }
        var equalIndex := IndexOf(trimmedLine, '=');
        if equalIndex > 0 {
          var key := Trim(trimmedLine[..equalIndex]);
          var value := Trim(trimmedLine[equalIndex + 1..]);
          if Quoted(value) {
            value := SliceInner(value);
          }
          assert TrimmedEntry(trimmedLine) == Some((key, value));
          if value != "" && value != Placeholder {
            env := env[key := value];
          }
        } else {
          assert TrimmedEntry(trimmedLine) == None;
        }
      }
      assert lines[..|lines|] == lines;
    }
  }

  /** One more line applies its entry to the environment so far. */
  lemma EntriesStep(lines: seq<string>, n: nat)
    requires n < |lines|
    ensures EnvOf(Entries(lines[..n + 1])) == ApplyEntry(EnvOf(Entries(lines[..n])), TrimmedEntry(Trim(lines[n])))
  {
    assert lines[..n + 1][..n] == lines[..n] && lines[..n + 1][n] == lines[n];
  }

  /** The last kept value the lines assign to `k`, if any. */
  function LastKept(es: seq<Entry>, k: string): Option<string> {
    if |es| == 0 then None
    else
      var e := es[|es| - 1];
      if e.Some? && e.value.0 == k && Kept(e.value.1) then Some(e.value.1)
      else LastKept(es[..|es| - 1], k)
  }

  /** What a key ends up as: the last kept assignment to it wins; an empty or
      placeholder value does not erase an earlier one; a key no line assigns
      keeps its starting value (only NODE_ENV has one). */
  lemma {:induction false} LastAssignmentWins(es: seq<Entry>, k: string)
    ensures LastKept(es, k).Some? ==> k in EnvOf(es) && EnvOf(es)[k] == LastKept(es, k).value
    ensures LastKept(es, k).None? ==>
      (k in EnvOf(es) <==> k == "NODE_ENV") && (k == "NODE_ENV" ==> EnvOf(es)[k] == "production")
  {
    if |es| > 0 {
      LastAssignmentWins(es[..|es| - 1], k);
    }
  }

  /** With no file the environment is exactly `{NODE_ENV: "production"}`;
      with one, NODE_ENV stays "production" unless a line sets it. */
  lemma NodeEnvDefault(file: Option<string>)
    ensures file.None? ==> EnvOfFile(file) == map["NODE_ENV" := "production"]
    ensures file.Some? && LastKept(Entries(Split(file.value, '\n')), "NODE_ENV").None? ==>
      "NODE_ENV" in EnvOfFile(file) && EnvOfFile(file)["NODE_ENV"] == "production"
  {
    if file.Some? {
      LastAssignmentWins(Entries(Split(file.value, '\n')), "NODE_ENV");
    }
  }

  /** Every entry a line can denote has a non-empty key without "=". */
  predicate KeysWellFormed(es: seq<Entry>) {
    forall i :: 0 <= i < |es| && es[i].Some? ==> es[i].value.0 != "" && '=' !in es[i].value.0
  }

  /** Every loaded key is non-empty and free of "=", and every loaded value is
      kept (non-empty, not the placeholder). */
  lemma {:induction false} LoadedEntriesWellFormed(es: seq<Entry>)
    requires KeysWellFormed(es)
    ensures forall k :: k in EnvOf(es) ==> k != "" && '=' !in k && Kept(EnvOf(es)[k])
  {
    if |es| > 0 {
      LoadedEntriesWellFormed(es[..|es| - 1]);
    }
  }

  /** The file's entries all have well-formed keys. */
  lemma {:induction false} LinesKeysWellFormed(lines: seq<string>)
    ensures KeysWellFormed(Entries(lines))
  {
    if |lines| > 0 {
      LinesKeysWellFormed(lines[..|lines| - 1]);
      LineEntryFacts(lines[|lines| - 1]);
    }
  }

  /** A line that denotes nothing (blank, comment, no "=" or "=" first)
      changes nothing wherever it is inserted. */
  lemma {:induction false} InertEntry(es: seq<Entry>, j: nat)
    requires j <= |es|
    ensures EnvOf(es[..j] + [None] + es[j..]) == EnvOf(es)
    decreases |es|
  {
    var ext := es[..j] + [None] + es[j..];
    if j == |es| {
      assert ext[..|ext| - 1] == es;
    } else {
      var init := es[..|es| - 1];
      InertEntry(init, j);
      assert ext[..|ext| - 1] == init[..j] + [None] + init[j..];
      assert ext[|ext| - 1] == es[|es| - 1];
    }
  }

  /** Mapping over a sequence with one element inserted. */
  lemma {:induction false} MapInsert<A, B>(f: A -> B, s: seq<A>, j: nat, x: A)
    requires j <= |s|
    ensures MapSeq(f, s[..j] + [x] + s[j..]) == MapSeq(f, s)[..j] + [f(x)] + MapSeq(f, s)[j..]
    decreases |s|
  {
    var ext := s[..j] + [x] + s[j..];
    if j == |s| {
      assert ext[..|ext| - 1] == s;
    } else {
      var init := s[..|s| - 1];
      MapInsert(f, init, j, x);
      assert ext[..|ext| - 1] == init[..j] + [x] + init[j..];
      assert ext[|ext| - 1] == s[|s| - 1];
      var last := [f(s[|s| - 1])];
      var ms, mi := MapSeq(f, s), MapSeq(f, init);
      assert MapSeq(f, ext) == mi[..j] + [f(x)] + mi[j..] + last;
      assert ms == mi + last;
      assert ms[..j] == mi[..j] && ms[j..] == mi[j..] + last;
    }
  }

  /** Blank and comment lines contribute nothing to the environment. */
  lemma IgnoredLineIsInert(lines: seq<string>, j: nat, line: string)
    requires j <= |lines|
    requires Trim(line) == "" || StartsWith(Trim(line), "#")
    ensures EnvOf(Entries(lines[..j] + [line] + lines[j..])) == EnvOf(Entries(lines))
  {
    var es := Entries(lines);
    LineEntryFacts(line);
    MapInsert(LineEntry, lines, j, line);
    InertEntry(es, j);
  }
}
