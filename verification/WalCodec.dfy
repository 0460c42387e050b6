/** The text format of the write-ahead log (pkg/wal/wal.go): one escaped, tab-separated line an entry. */
module WalCodec {
  import opened Prelude
  import opened Decimal

  datatype Entry = Entry(op: string, key: string, value: string, ttl: int)

  datatype ReadError = LineTooLong

  // bufio.Scanner gives up on a line longer than this
  const MAX_LINE: nat := 65535

  predicate ValidOp(op: string) {
    op == "set" || op == "delete"
  }

  // ----- writing

  function Escape(v: string): string {
    if v == "" then ""
    else (if v[0] == '\n' then "\\n" else [v[0]]) + Escape(v[1..])
  }

  /** The line of an entry, without its newline. */
  function Line(e: Entry): string {
    e.op + "\t" + e.key + "\t" + Escape(e.value) + "\t" + Print(e.ttl)
  }

  function Terminated(e: Entry): string {
    Line(e) + "\n"
  }

  function EncodeAll(es: seq<Entry>): string
    decreases |es|, 1
  {
    if es == [] then "" else EncodeLast(es)
  }

  function EncodeLast(es: seq<Entry>): string
    requires es != []
    decreases |es|, 0
  {
    EncodeAll(es[..|es| - 1]) + Terminated(es[|es| - 1])
  }

  // ----- reading

  function Unescape(s: string): string
    decreases |s|
  {
    if s == "" then ""
    else if |s| >= 2 && s[0] == '\\' && s[1] == 'n' then "\n" + Unescape(s[2..])
    else [s[0]] + Unescape(s[1..])
  }

  /** At most n pieces; the last one keeps any further separators. */
  function SplitN(s: string, c: char, n: nat): (r: seq<string>)
    requires n > 0
    ensures 1 <= |r| <= n
  {
    if n == 1 || c !in s then [s]
    else [s[..IndexOf(s, c)]] + SplitN(s[IndexOf(s, c) + 1..], c, n - 1)
  }

  /** The file cut at newlines; a last piece without one counts when it is not empty. */
  function Chunks(file: string): seq<string>
    decreases |file|
  {
    if file == "" then []
    else if '\n' !in file then [file]
    else [file[..IndexOf(file, '\n')]] + Chunks(file[IndexOf(file, '\n') + 1..])
  }

  function DropCR(s: string): string {
    if s != "" && s[|s| - 1] == '\r' then s[..|s| - 1] else s
  }

  function ParseLine(line: string): Option<Entry> {
    var parts := SplitN(line, '\t', 4);
    if |parts| < 2 then None
    else if parts[0] == "set" then
      if |parts| < 3 then None
      else Some(Entry("set", parts[1], Unescape(parts[2]),
                      if |parts| < 4 || Parse(parts[3]).None? then 0 else Parse(parts[3]).value))
    else if parts[0] == "delete" then Some(Entry("delete", parts[1], "", 0))
    else None
  }

  function Parsed(chunk: string): seq<Entry> {
    match ParseLine(DropCR(chunk))
    case Some(e) => [e]
    case None => []
  }

  function ParseAll(chunks: seq<string>): seq<Entry>
    decreases |chunks|
  {
    if chunks == [] then [] else ParseAll(chunks[..|chunks| - 1]) + Parsed(chunks[|chunks| - 1])
  }

  predicate Scannable(chunks: seq<string>) {
    forall i :: 0 <= i < |chunks| ==> |chunks[i]| <= MAX_LINE
  }

  function ReadFile(file: string): Result<seq<Entry>, ReadError> {
    if Scannable(Chunks(file)) then Ok(ParseAll(Chunks(file))) else Err(LineTooLong)
  }

  // ----- escaping

  predicate HasPair(v: string) {
    exists i :: 0 <= i < |v| - 1 && v[i] == '\\' && v[i + 1] == 'n'
  }

  lemma PairSplit(v: string)
    requires v != ""
    ensures HasPair(v) <==> (|v| >= 2 && v[0] == '\\' && v[1] == 'n') || HasPair(v[1..])
  {
    if i :| 0 <= i < |v| - 1 && v[i] == '\\' && v[i + 1] == 'n' {
      if i > 0 {
        assert v[1..][i - 1] == '\\' && v[1..][i - 1 + 1] == 'n';
      }
    }
    if j :| 0 <= j < |v[1..]| - 1 && v[1..][j] == '\\' && v[1..][j + 1] == 'n' {
      assert v[j + 1] == '\\' && v[j + 1 + 1] == 'n';
    }
  }

  predicate StartsWithN(s: string) {
    s != "" && s[0] == 'n'
  }

  lemma UnescapeCons(c: char, r: string)
    ensures c == '\\' && StartsWithN(r) ==> Unescape([c] + r) == "\n" + Unescape(r[1..])
    ensures !(c == '\\' && StartsWithN(r)) ==> Unescape([c] + r) == [c] + Unescape(r)
  {
    assert ([c] + r)[1..] == r;
    assert r != "" ==> ([c] + r)[2..] == r[1..];
  }

  lemma UnescapeNewline(r: string)
    ensures Unescape("\\n" + r) == "\n" + Unescape(r)
  {
    assert ("\\n" + r)[2..] == r;
  }

  lemma {:induction false} UnescapeEscape(v: string)
    ensures Unescape(Escape(v)) == Unescape(v)
    decreases |v|
  {
    if v != "" {
      var c, r := v[0], v[1..];
      assert v == [c] + r;
      UnescapeEscape(r);
      UnescapeCons(c, r);
      if c == '\n' {
        UnescapeNewline(Escape(r));
      } else {
        UnescapeCons(c, Escape(r));
        if StartsWithN(r) {
          assert Escape(r)[1..] == Escape(r[1..]);
          UnescapeEscape(r[1..]);
        }
      }
    }
  }

  lemma {:induction false} UnescapeIdentity(v: string)
    ensures |Unescape(v)| <= |v|
    ensures Unescape(v) == v <==> !HasPair(v)
    decreases |v|
  {
    if v == "" {
    } else {
      PairSplit(v);
      if |v| >= 2 && v[0] == '\\' && v[1] == 'n' {
        UnescapeIdentity(v[2..]);
      } else {
        UnescapeIdentity(v[1..]);
        assert v == [v[0]] + v[1..];
        assert Unescape(v)[1..] == Unescape(v[1..]);
      }
    }
  }

  /** A value survives the log's escaping exactly when it holds no literal backslash-n pair. */
  lemma {:induction false} EscapeRoundTrip(v: string)
    ensures Unescape(Escape(v)) == v <==> !HasPair(v)
  {
    UnescapeEscape(v);
    UnescapeIdentity(v);
  }

  lemma {:induction false} EscapePlain(v: string)
    ensures '\n' !in Escape(v)
    ensures '\t' in Escape(v) <==> '\t' in v
  {
    if v != "" {
      EscapePlain(v[1..]);
      assert v == [v[0]] + v[1..];
    }
  }

  /** Unescaped text has no backslash-n pair, and gains nothing but newlines. */
  lemma {:induction false} UnescapedClean(s: string)
    ensures !HasPair(Unescape(s))
    ensures '\t' !in s ==> '\t' !in Unescape(s)
    decreases |s|
  {
    if s == "" {
    } else {
      var u := Unescape(s);
      PairSplit(u);
      if |s| >= 2 && s[0] == '\\' && s[1] == 'n' {
        UnescapedClean(s[2..]);
        assert u[1..] == Unescape(s[2..]);
      } else {
        UnescapedClean(s[1..]);
        assert u[1..] == Unescape(s[1..]);
        if s[0] == '\\' && |s| >= 2 {
          assert u[1] == Unescape(s[1..])[0];
          assert u[1] == '\n' || u[1] == s[1];
        }
      }
    }
  }

  // ----- one line

  predicate NoBreaks(s: string) {
    '\t' !in s && '\n' !in s
  }

  /** What the format can carry. The cache itself only ever appends deletes without value or TTL. */
  predicate Encodable(e: Entry) {
    && NoBreaks(e.key)
    && (|| (e.op == "set" && '\t' !in e.value && !HasPair(e.value) && IsInt64(e.ttl))
        || (e.op == "delete" && e.value == "" && e.ttl == 0))
  }

  predicate Fits(e: Entry) {
    |Line(e)| <= MAX_LINE
  }

  lemma {:induction false} IndexUnique(s: string, c: char, j: nat)
    requires j < |s| && s[j] == c && c !in s[..j]
    ensures c in s && IndexOf(s, c) == j
  {
    if j > 0 {
      assert s[0] == s[..j][0];
      assert s[1..][..j - 1] == s[..j][1..];
      IndexUnique(s[1..], c, j - 1);
    }
  }

  lemma FirstAt(a: string, c: char, rest: string)
    requires c !in a
    ensures var s := a + [c] + rest;
            c in s && IndexOf(s, c) == |a| && s[..|a|] == a && s[|a| + 1..] == rest
  {
    var s := a + [c] + rest;
    assert s[..|a|] == a && s[|a| + 1..] == rest;
    IndexUnique(s, c, |a|);
  }

  lemma SplitFirst(a: string, c: char, rest: string, n: nat)
    requires c !in a && n > 1
    ensures SplitN(a + [c] + rest, c, n) == [a] + SplitN(rest, c, n - 1)
  {
    FirstAt(a, c, rest);
  }

  lemma Reassociate<T>(a: seq<T>, b: seq<T>, c: seq<T>)
    ensures a + b + c == a + (b + c)
  {
  }

  lemma ThreeParts(a: string, b: string, c: string)
    requires '\t' !in a && '\t' !in b
    ensures SplitN(a + "\t" + b + "\t" + c, '\t', 4) == [a] + ([b] + SplitN(c, '\t', 2))
  {
    var tail := b + "\t" + c;
    SplitFirst(a, '\t', tail, 4);
    SplitFirst(b, '\t', c, 3);
    Reassociate(a + "\t", b + "\t", c);
    Reassociate(a + "\t", b, "\t");
  }

  lemma FourParts(a: string, b: string, c: string, d: string)
    requires '\t' !in a && '\t' !in b && '\t' !in c
    ensures SplitN(a + "\t" + b + "\t" + c + "\t" + d, '\t', 4) == [a] + ([b] + [c, d])
  {
    SplitFirst(c, '\t', d, 2);
    ThreeParts(a, b, c + "\t" + d);
    Reassociate(a + "\t" + b + "\t", c, "\t" + d);
    Reassociate(a + "\t" + b + "\t" + c, "\t", d);
    Reassociate(c, "\t", d);
  }

  lemma Listed<T>(a: T, b: T, c: T, d: T)
    ensures [a] + ([b] + [c, d]) == [a, b, c, d]
  {
  }

  lemma PlainOp(e: Entry)
    requires Encodable(e)
    ensures '\t' !in e.op
  {
  }

  lemma LineSplits(e: Entry)
    requires Encodable(e)
    ensures SplitN(Line(e), '\t', 4) == [e.op, e.key, Escape(e.value), Print(e.ttl)]
  {
    EscapePlain(e.value);
    PlainOp(e);
    FourParts(e.op, e.key, Escape(e.value), Print(e.ttl));
    Listed(e.op, e.key, Escape(e.value), Print(e.ttl));
  }

  lemma LineShape(e: Entry)
    requires Encodable(e)
    ensures '\n' !in Line(e) && DropCR(Line(e)) == Line(e)
  {
    EscapePlain(e.value);
    PrintPlain(e.ttl);
    var t := Print(e.ttl);
    assert Line(e)[|Line(e)| - 1] == t[|t| - 1] && t[|t| - 1] in t;
  }

  lemma LineRoundTrip(e: Entry)
    requires Encodable(e)
    ensures ParseLine(DropCR(Line(e))) == Some(e)
  {
    LineShape(e);
    LineSplits(e);
    EscapeRoundTrip(e.value);
    ParsePrint(e.ttl);
  }

  /** No piece but the last possible one holds the separator. */
  lemma {:induction false} SplitPlain(s: string, c: char, n: nat)
    requires n > 0
    ensures forall i :: 0 <= i < |SplitN(s, c, n)| && i < n - 1 ==> c !in SplitN(s, c, n)[i]
    decreases n
  {
    if n > 1 && c in s {
      SplitPlain(s[IndexOf(s, c) + 1..], c, n - 1);
    }
  }

  lemma {:induction false} SplitWithin(s: string, c: char, n: nat, d: char)
    requires n > 0 && d !in s
    ensures forall i :: 0 <= i < |SplitN(s, c, n)| ==> d !in SplitN(s, c, n)[i]
    decreases n
  {
    if n > 1 && c in s {
      SplitWithin(s[IndexOf(s, c) + 1..], c, n - 1, d);
    }
  }

  /** Whatever a line holds, an entry read from it is one the format can carry. */
  lemma ParsedEncodable(line: string)
    requires '\n' !in line
    ensures ParseLine(line).Some? ==> Encodable(ParseLine(line).value)
  {
    var parts := SplitN(line, '\t', 4);
    SplitPlain(line, '\t', 4);
    SplitWithin(line, '\t', 4, '\n');
    if |parts| >= 3 {
      UnescapedClean(parts[2]);
    }
    if |parts| >= 4 {
      ParseInt64(parts[3]);
    }
  }

  /** Sets the cache does not write itself: one without a value is skipped, and one without a TTL, or with
      one that cannot be read, has none. */
  lemma OtherSets(key: string, value: string, ttl: string)
    requires '\t' !in key && '\t' !in value && Parse(ttl).None?
    ensures ParseLine("set" + "\t" + key) == None
    ensures ParseLine("set" + "\t" + key + "\t" + value) == Some(Entry("set", key, Unescape(value), 0))
    ensures ParseLine("set" + "\t" + key + "\t" + value + "\t" + ttl) == Some(Entry("set", key, Unescape(value), 0))
  {
    SplitFirst("set", '\t', key, 4);
    ThreeParts("set", key, value);
    FourParts("set", key, value, ttl);
  }

  /** What follows the key of a delete is ignored. */
  lemma OtherDeletes(key: string, rest: string)
    requires '\t' !in key
    ensures ParseLine("delete" + "\t" + key) == Some(Entry("delete", key, "", 0))
    ensures ParseLine("delete" + "\t" + key + "\t" + rest) == Some(Entry("delete", key, "", 0))
  {
    SplitFirst("delete", '\t', key, 4);
    ThreeParts("delete", key, rest);
  }

  /** A line without a tab, or of another operation, is skipped. */
  lemma SkippedLines(op: string, rest: string)
    requires '\t' !in op
    ensures ParseLine(op) == None
    ensures !ValidOp(op) ==> ParseLine(op + "\t" + rest) == None
  {
    SplitFirst(op, '\t', rest, 4);
  }

  /** A carriage return before the newline does not count. */
  lemma CarriageReturn(e: Entry)
    requires Encodable(e)
    ensures Parsed(Line(e) + "\r") == [e]
  {
    LineRoundTrip(e);
    LineShape(e);
    assert (Line(e) + "\r")[..|Line(e)|] == Line(e);
  }

  /** The format, on an entry whose value holds a newline. */
  lemma WrittenLine()
    ensures Terminated(Entry("set", "k", "a\nb", 5)) == "set\tk\ta\\nb\t5\n"
    ensures Terminated(Entry("delete", "k", "", 0)) == "delete\tk\t\t0\n"
  {
    assert "a\nb"[1..] == "\nb" && "\nb"[1..] == "b" && "b"[1..] == "";
    assert Escape("b") == "b" && Escape("\nb") == "\\nb";
  }

  // ----- whole files

  lemma ChunksFirst(a: string, rest: string)
    requires '\n' !in a
    ensures Chunks(a + ['\n'] + rest) == [a] + Chunks(rest)
  {
    FirstAt(a, '\n', rest);
  }

  predicate Complete(file: string) {
    file == "" || file[|file| - 1] == '\n'
  }

  lemma CutFirst(a: string) returns (first: string, rest: string)
    requires a != "" && Complete(a)
    ensures '\n' !in first && a == first + ['\n'] + rest && Complete(rest) && |rest| < |a|
  {
    assert a[|a| - 1] in a;
    var i := IndexOf(a, '\n');
    first, rest := a[..i], a[i + 1..];
  }

  lemma Snoc<T>(s: seq<T>)
    requires s != []
    ensures s == s[..|s| - 1] + [s[|s| - 1]]
  {
  }

  lemma Rejoin<T>(a: seq<T>, b: seq<T>)
    requires a <= b
    ensures a + b[|a|..] == b
  {
  }

  lemma TakeOfAppend<T>(a: seq<T>, b: seq<T>, m: nat)
    requires m <= |a|
    ensures (a + b)[..m] == a[..m]
  {
  }

  lemma ChunksOfCut(first: string, rest: string, b: string)
    requires '\n' !in first
    ensures Chunks(first + ['\n'] + rest + b) == [first] + Chunks(rest + b)
  {
    Reassociate(first + ['\n'], rest, b);
    ChunksFirst(first, rest + b);
  }

  /** A file that ends in a newline is cut there first. */
  lemma {:induction false} ChunksAppend(a: string, b: string)
    requires Complete(a)
    ensures Chunks(a + b) == Chunks(a) + Chunks(b)
    decreases |a|
  {
    if a == "" {
      assert a + b == b;
    } else {
      var first, rest := CutFirst(a);
      ChunksAppend(rest, b);
      ChunksFirst(first, rest);
      ChunksOfCut(first, rest, b);
      Reassociate([first], Chunks(rest), Chunks(b));
    }
  }

  function Lines(es: seq<Entry>): seq<string>
    decreases |es|
  {
    if es == [] then [] else Lines(es[..|es| - 1]) + [Line(es[|es| - 1])]
  }

  predicate Carried(e: Entry) {
    Encodable(e) && Fits(e)
  }

  ghost predicate Loggable(es: seq<Entry>) {
    forall e {:trigger Carried(e)} :: e in es ==> Carried(e)
  }

  lemma TerminatedChunk(e: Entry)
    requires Encodable(e)
    ensures Chunks(Terminated(e)) == [Line(e)]
  {
    LineShape(e);
    ChunksFirst(Line(e), "");
    assert Line(e) + ['\n'] + "" == Terminated(e);
  }

  lemma {:induction false} EncodedChunks(es: seq<Entry>)
    requires Loggable(es)
    ensures Complete(EncodeAll(es)) && Chunks(EncodeAll(es)) == Lines(es) && Scannable(Lines(es))
    decreases |es|
  {
    if es != [] {
      var n := |es| - 1;
      EncodedChunks(es[..n]);
      assert EncodeAll(es) == EncodeLast(es);
      assert Carried(es[n]);
      TerminatedChunk(es[n]);
      ChunksAppend(EncodeAll(es[..n]), Terminated(es[n]));
    }
  }

  lemma ParseSnoc(cs: seq<string>, c: string)
    ensures ParseAll(cs + [c]) == ParseAll(cs) + Parsed(c)
  {
    assert (cs + [c])[..|cs|] == cs;
  }

  lemma {:induction false} ParseLines(es: seq<Entry>)
    requires Loggable(es)
    ensures ParseAll(Lines(es)) == es
    decreases |es|
  {
    if es != [] {
      var n := |es| - 1;
      ParseLines(es[..n]);
      assert Carried(es[n]);
      LineRoundTrip(es[n]);
      ParseSnoc(Lines(es[..n]), Line(es[n]));
      Snoc(es);
    }
  }

  lemma {:induction false} RoundTrip(es: seq<Entry>)
    requires Loggable(es)
    ensures ReadFile(EncodeAll(es)) == Ok(es)
  {
    EncodedChunks(es);
    ParseLines(es);
  }

  lemma {:induction false} ParseAppend(cs: seq<string>, ds: seq<string>)
    ensures ParseAll(cs + ds) == ParseAll(cs) + ParseAll(ds)
    decreases |ds|
  {
    if ds == [] {
      assert cs + ds == cs;
    } else {
      var init, d := ds[..|ds| - 1], ds[|ds| - 1];
      ParseAppend(cs, init);
      ParseSnoc(cs + init, d);
      Snoc(ds);
      Reassociate(cs, init, [d]);
      Reassociate(ParseAll(cs), ParseAll(init), Parsed(d));
    }
  }

  lemma CompleteBoth(a: string, b: string)
    requires Complete(a) && Complete(b)
    ensures Complete(a + b)
  {
    if b == "" {
      assert a + b == a;
    }
  }

  lemma ReadBoth(a: string, b: string, cs: seq<string>)
    requires Chunks(a + b) == Chunks(a) + cs && ReadFile(a).Ok? && Scannable(cs)
    ensures ReadFile(a + b) == Ok(ReadFile(a).value + ParseAll(cs))
  {
    ParseAppend(Chunks(a), cs);
  }

  /** Entries appended to a whole file are read back after what it held, and leave it whole. */
  lemma ReadAppended(base: string, es: seq<Entry>)
    requires Complete(base) && ReadFile(base).Ok? && Loggable(es)
    ensures Complete(base + EncodeAll(es)) && ReadFile(base + EncodeAll(es)) == Ok(ReadFile(base).value + es)
  {
    EncodedChunks(es);
    ParseLines(es);
    ChunksAppend(base, EncodeAll(es));
    ReadBoth(base, EncodeAll(es), Lines(es));
    CompleteBoth(base, EncodeAll(es));
  }

  lemma EncodeOneMore(es: seq<Entry>, e: Entry)
    ensures EncodeAll(es + [e]) == EncodeAll(es) + Terminated(e)
  {
    assert (es + [e])[..|es|] == es;
    assert EncodeAll(es + [e]) == EncodeLast(es + [e]);
  }

  lemma {:induction false} EncodeCons(e: Entry, es: seq<Entry>)
    ensures EncodeAll([e] + es) == Terminated(e) + EncodeAll(es)
    decreases |es|
  {
    if es == [] {
      assert [e] + es == [] + [e];
      EncodeOneMore([], e);
    } else {
      var init, last := es[..|es| - 1], es[|es| - 1];
      EncodeCons(e, init);
      EncodeOneMore([e] + init, last);
      EncodeOneMore(init, last);
      Snoc(es);
      Reassociate([e], init, [last]);
      Reassociate(Terminated(e), EncodeAll(init), Terminated(last));
    }
  }

  lemma EncodeFirst(es: seq<Entry>)
    requires es != []
    ensures EncodeAll(es) == Terminated(es[0]) + EncodeAll(es[1..])
  {
    EncodeCons(es[0], es[1..]);
    assert es == [es[0]] + es[1..];
  }

  lemma TornChunks(whole: string, torn: string, es: seq<Entry>)
    requires Complete(whole) && '\n' !in torn && Loggable(es) && es != []
    ensures Chunks(whole + (torn + EncodeAll(es))) == Chunks(whole) + [torn + Line(es[0])] + Lines(es[1..])
  {
    assert Carried(es[0]);
    LineShape(es[0]);
    EncodeFirst(es);
    EncodedChunks(es[1..]);
    ChunksAppend(whole, torn + EncodeAll(es));
    ChunksFirst(torn + Line(es[0]), EncodeAll(es[1..]));
    Reassociate(torn, Line(es[0]), ['\n']);
    Reassociate(torn, Terminated(es[0]), EncodeAll(es[1..]));
    Reassociate(Chunks(whole), [torn + Line(es[0])], Lines(es[1..]));
  }

  lemma ScannableAround(a: seq<string>, c: string, b: seq<string>)
    requires Scannable(a) && Scannable(b)
    ensures Scannable(a + [c] + b) <==> |c| <= MAX_LINE
  {
    assert (a + [c] + b)[|a|] == c;
  }

  /** To a file whose last line is torn, the first entry appended becomes part of that line: the two are
      read as one entry or none, or as a line too long to read at all. Entries after it are read back. */
  lemma AfterTornLine(whole: string, torn: string, es: seq<Entry>)
    requires Complete(whole) && ReadFile(whole).Ok? && '\n' !in torn && Loggable(es) && es != []
    ensures ReadFile(whole + (torn + EncodeAll(es))) ==
            if |torn + Line(es[0])| > MAX_LINE then Err(LineTooLong)
            else Ok(ReadFile(whole).value + Parsed(torn + Line(es[0])) + es[1..])
  {
    var merged := torn + Line(es[0]);
    TornChunks(whole, torn, es);
    EncodedChunks(es[1..]);
    ParseLines(es[1..]);
    ParseSnoc(Chunks(whole), merged);
    ParseAppend(Chunks(whole) + [merged], Lines(es[1..]));
    ScannableAround(Chunks(whole), merged, Lines(es[1..]));
  }

  /** A line of up to 65535 characters can be read, and one of more cannot. */
  lemma LineLimit(line: string)
    requires line != "" && '\n' !in line
    ensures ReadFile(line).Ok? <==> |line| < 65536
  {
    assert Chunks(line) == [line];
    assert Chunks(line)[0] == line;
  }

  lemma {:induction false} ChunksPlain(file: string)
    ensures forall c :: c in Chunks(file) ==> '\n' !in c
    decreases |file|
  {
    if file != "" && '\n' in file {
      ChunksPlain(file[IndexOf(file, '\n') + 1..]);
    }
  }

  lemma {:induction false} ParsedAllEncodable(cs: seq<string>)
    requires forall c :: c in cs ==> '\n' !in c
    ensures forall e :: e in ParseAll(cs) ==> Encodable(e)
    decreases |cs|
  {
    if cs != [] {
      var c := cs[|cs| - 1];
      ParsedAllEncodable(cs[..|cs| - 1]);
      assert c in cs;
      ParsedEncodable(DropCR(c));
    }
  }

  /** Whatever bytes the file holds, every entry read from it is one the format can carry. */
  lemma ReadEncodable(file: string)
    ensures ReadFile(file).Ok? ==> forall e :: e in ReadFile(file).value ==> Encodable(e)
  {
    ChunksPlain(file);
    ParsedAllEncodable(Chunks(file));
  }

  /** Reading back a written log gives exactly the entries written if and only if the format can
      carry each of them. */
  lemma {:induction false} RoundTripExactly(es: seq<Entry>)
    requires forall e :: e in es ==> Fits(e)
    ensures ReadFile(EncodeAll(es)) == Ok(es) <==> forall e :: e in es ==> Encodable(e)
  {
    if forall e :: e in es ==> Encodable(e) {
      assert Loggable(es);
      RoundTrip(es);
    }
    ReadEncodable(EncodeAll(es));
  }

  lemma TornLast(es: seq<Entry>, p: string)
    requires Loggable(es) && '\n' !in p && |p| <= MAX_LINE
    ensures ReadFile(EncodeAll(es) + p) == Ok(es + if p == "" then [] else Parsed(p))
  {
    EncodedChunks(es);
    ParseLines(es);
    ChunksAppend(EncodeAll(es), p);
    if p == "" {
      assert Chunks(p) == [] && Lines(es) + [] == Lines(es) && es + [] == es;
    } else {
      assert Chunks(p) == [p];
      ParseSnoc(Lines(es), p);
    }
  }

  lemma TakeInto<T>(a: seq<T>, b: seq<T>, c: seq<T>, m: nat)
    requires |a| <= m <= |a| + |b|
    ensures (a + (b + c))[..m] == a + b[..m - |a|]
  {
  }

  lemma CutInLast(es: seq<Entry>, m: nat) returns (torn: seq<Entry>)
    requires Loggable(es) && es != []
    requires |EncodeAll(es[..|es| - 1])| <= m < |EncodeAll(es)|
    ensures |torn| <= 1 && ReadFile(EncodeAll(es)[..m]) == Ok(es[..|es| - 1] + torn)
  {
    var done, last := EncodeAll(es[..|es| - 1]), es[|es| - 1];
    var p := Line(last)[..m - |done|];
    assert Carried(last);
    LineShape(last);
    TornLast(es[..|es| - 1], p);
    torn := if p == "" then [] else Parsed(p);
    assert EncodeAll(es) == EncodeLast(es) == done + Terminated(last);
    TakeInto(done, Line(last), "\n", m);
  }

  /** The first j entries are the ones written in full within the first m bytes. */
  ghost predicate WrittenBy(es: seq<Entry>, m: nat, j: nat) {
    && j <= |es| && |EncodeAll(es[..j])| <= m
    && (j < |es| ==> m < |EncodeAll(es[..j + 1])|)
  }

  lemma TakeTake<T>(s: seq<T>, n: nat, j: nat)
    requires j <= n <= |s|
    ensures s[..n][..j] == s[..j]
  {
  }

  lemma WrittenByMore(es: seq<Entry>, m: nat, j: nat)
    requires es != [] && WrittenBy(es[..|es| - 1], m, j) && m < |EncodeAll(es[..|es| - 1])|
    ensures WrittenBy(es, m, j) && es[..|es| - 1][..j] == es[..j]
  {
    var n := |es| - 1;
    TakeTake(es, n, j);
    if j < n {
      TakeTake(es, n, j + 1);
    }
  }

  lemma CutBeforeLast(es: seq<Entry>, m: nat)
    requires es != [] && m <= |EncodeAll(es[..|es| - 1])|
    ensures m <= |EncodeAll(es)| && EncodeAll(es)[..m] == EncodeAll(es[..|es| - 1])[..m]
  {
    assert EncodeAll(es) == EncodeLast(es);
    TakeOfAppend(EncodeAll(es[..|es| - 1]), Terminated(es[|es| - 1]), m);
  }

  lemma WrittenByLast(es: seq<Entry>, m: nat)
    requires es != [] && |EncodeAll(es[..|es| - 1])| <= m < |EncodeAll(es)|
    ensures WrittenBy(es, m, |es| - 1)
  {
    assert es[..|es| - 1 + 1] == es;
  }

  lemma WrittenByAll(es: seq<Entry>)
    ensures WrittenBy(es, |EncodeAll(es)|, |es|)
    ensures EncodeAll(es)[..|EncodeAll(es)|] == EncodeAll(es) && es[..|es|] + [] == es
  {
    assert es[..|es|] == es;
  }

  /** A file cut off anywhere gives back every entry written in full before the cut, and at most
      one more entry, read from the torn line. */
  lemma {:induction false} AnyPrefix(es: seq<Entry>, m: nat) returns (j: nat, torn: seq<Entry>)
    requires Loggable(es) && m <= |EncodeAll(es)|
    ensures WrittenBy(es, m, j) && |torn| <= 1
    ensures ReadFile(EncodeAll(es)[..m]) == Ok(es[..j] + torn)
    decreases |es|
  {
    if m == |EncodeAll(es)| {
      j, torn := |es|, [];
      RoundTrip(es);
      WrittenByAll(es);
    } else if m < |EncodeAll(es[..|es| - 1])| {
      j, torn := AnyPrefix(es[..|es| - 1], m);
      WrittenByMore(es, m, j);
      CutBeforeLast(es, m);
    } else {
      j := |es| - 1;
      torn := CutInLast(es, m);
      WrittenByLast(es, m);
    }
  }
}
