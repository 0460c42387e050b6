/** The log file itself (pkg/wal/wal.go): appended to in place, read back in one pass. */
module Wal {
  import opened Prelude
  import opened Decimal
  import opened WalCodec

  lemma {:induction false} ParseCons(c: string, cs: seq<string>)
    ensures ParseAll([c] + cs) == Parsed(c) + ParseAll(cs)
    decreases |cs|
  {
    if cs == [] {
      assert [c] + cs == [] + [c];
      ParseSnoc([], c);
    } else {
      var init, last := cs[..|cs| - 1], cs[|cs| - 1];
      ParseCons(c, init);
      ConsSnoc(c, cs);
      ParseSnoc([c] + init, last);
      Reassociate(Parsed(c), ParseAll(init), Parsed(last));
    }
  }

  lemma ConsSnoc<T>(x: T, s: seq<T>)
    requires s != []
    ensures [x] + s == ([x] + s[..|s| - 1]) + [s[|s| - 1]]
  {
  }

  lemma ScannableCons(c: string, cs: seq<string>)
    ensures Scannable([c] + cs) <==> |c| <= MAX_LINE && Scannable(cs)
  {
    if Scannable([c] + cs) {
      assert ([c] + cs)[0] == c;
      assert forall i :: 0 <= i < |cs| ==> ([c] + cs)[i + 1] == cs[i];
    }
  }

  function FirstChunk(file: string): string {
    if '\n' in file then file[..IndexOf(file, '\n')] else file
  }

  function AfterFirst(file: string): (rest: string)
    ensures file != "" ==> |rest| < |file|
  {
    if '\n' in file then file[IndexOf(file, '\n') + 1..] else ""
  }

  lemma {:induction false} ScanStep(file: string, es: seq<Entry>)
    requires file != ""
    ensures Scannable(Chunks(file)) <==> |FirstChunk(file)| <= MAX_LINE && Scannable(Chunks(AfterFirst(file)))
    ensures es + ParseAll(Chunks(file)) == es + Parsed(FirstChunk(file)) + ParseAll(Chunks(AfterFirst(file)))
  {
    var c, cs := FirstChunk(file), Chunks(AfterFirst(file));
    assert Chunks(file) == [c] + cs;
    ParseCons(c, cs);
    ScannableCons(c, cs);
    Reassociate(es, Parsed(c), ParseAll(cs));
  }

  lemma EncodeSnoc(base: string, es: seq<Entry>, e: Entry)
    ensures base + EncodeAll(es) + Terminated(e) == base + EncodeAll(es + [e])
  {
    EncodeOneMore(es, e);
    Reassociate(base, EncodeAll(es), Terminated(e));
  }

  /** What can be read of a file: nothing if it cannot be scanned. */
  function Found(file: string): seq<Entry> {
    match ReadFile(file)
    case Ok(es) => es
    case Err(_) => []
  }

  class WAL {
    var file: string
    ghost const base: string      // what the file held when it was opened
    ghost const found: seq<Entry> // what could be read of that
    ghost var entries: seq<Entry> // what has been appended since
    ghost var log: seq<Entry>     // the two together

    ghost predicate Valid()
      reads this
    {
      file == base + EncodeAll(entries) && log == found + entries
    }

    /** Nothing has been appended yet. */
    ghost predicate Opened()
      reads this
    {
      entries == [] && file == base && log == found == Found(base)
    }

    constructor (contents: string)
      ensures Valid() && Opened() && file == contents
    {
      file, base, found, entries, log := contents, contents, Found(contents), [], Found(contents);
    }

    /** flushed says whether the write reached the file. */
    method Append(e: Entry, flushed: bool) returns (ok: bool)
      requires Valid()
      modifies this
      ensures Valid()
      ensures ok == (flushed && ValidOp(e.op))
      ensures entries == if ok then old(entries) + [e] else old(entries)
      ensures log == if ok then old(log) + [e] else old(log)
      ensures file == if ok then old(file) + Terminated(e) else old(file)
    {
      if e.op != "set" && e.op != "delete" {
        return false;
      }
      if !flushed {
        return false;
      }
      file := file + Terminated(e);
      entries, log := entries + [e], log + [e];
      Reassociate(found, old(entries), [e]);
      EncodeSnoc(base, old(entries), e);
      return true;
    }

    method ReadAll() returns (r: Result<seq<Entry>, ReadError>)
      ensures r == ReadFile(file)
    {
      var rest, es := file, [];
      while rest != ""
        invariant Scannable(Chunks(file)) <==> Scannable(Chunks(rest))
        invariant ParseAll(Chunks(file)) == es + ParseAll(Chunks(rest))
        decreases |rest|
      {
        ScanStep(rest, es);
        var chunk := FirstChunk(rest);
        if |chunk| > MAX_LINE {
          return Err(LineTooLong);
        }
        var found := ReadLine(DropCR(chunk));
        es := es + found;
        rest := AfterFirst(rest);
      }
      assert es + [] == es;
      return Ok(es);
    }

    /** The body of the scan loop: the entry on one line, or nothing when the line is skipped. */
    method ReadLine(line: string) returns (found: seq<Entry>)
      ensures found == match ParseLine(line) case Some(e) => [e] case None => []
    {
      var parts := SplitN(line, '\t', 4);
      if |parts| < 2 {
        return [];
      }
      var op, key, value, ttl := parts[0], parts[1], "", 0;
      if op == "set" {
        if |parts| < 3 {
          return [];
        }
        value := Unescape(parts[2]);
        if |parts| >= 4 {
          var n := Parse(parts[3]);
          if n.Some? {
            ttl := n.value;
          }
        }
      }
      if op != "set" && op != "delete" {
        return [];
      }
      return [Entry(op, key, value, ttl)];
    }
  }
}
