/** `TransactionLog` of C++/code/sharemarket.cpp: an append-only list of
    entries, with the record layout of its save and load functions. Text-to-
    number conversion is not modelled: each numeric field of a line arrives
    already converted, as a `NumText`. */
module Ledger {

  import opened Wrappers

  /** One transaction: `action` is "BUY", "SELL", "DEPOSIT" or "WITHDRAW" for
      entries the program adds, and any text for entries read from a file. */
  datatype Entry = Entry(
    time: string, action: string, symbol: string, name: string, kind: string,
    qty: real, price: real, balanceAfter: real)

  /** A numeric field of a line: empty, text that `stod` converts, or text
      that makes `stod` throw. */
  datatype NumText = EmptyText | Number(value: real) | NotNumber

  /** `tmp.empty() ? 0.0 : stod(tmp)`, with `None` for the exception. */
  function ZeroIfEmpty(t: NumText): (r: Option<real>)
    ensures r.None? <==> t.NotNumber?
    ensures t.EmptyText? ==> r == Some(0.0)
    ensures t.Number? ==> r == Some(t.value)
  {
    match t
    case EmptyText => Some(0.0)
    case Number(v) => Some(v)
    case NotNumber => None
  }

  /** A line of a `.txlog` file, split at '|' as
      `time|action|type|symbol|name|qty|price|balanceAfter`. Missing trailing
      text fields read as empty. The three numbers share one buffer that
      `std::getline` leaves untouched once the line is used up, so a missing
      number repeats the text of the number before it (or is empty when no
      number was read); each `NumText` is whatever the program converts, which
      covers that case too. */
  datatype LogLine =
    | BlankLine
    | LogRecord(time: string, action: string, kind: string, symbol: string, name: string,
                qty: NumText, price: NumText, balance: NumText)

  /** The entry a non-blank line holds, or `None` if one of its three numbers
      fails to convert. */
  function ParseEntry(line: LogLine): (r: Option<Entry>)
    requires line.LogRecord?
    ensures r.None? <==> line.qty.NotNumber? || line.price.NotNumber? || line.balance.NotNumber?
    ensures r.Some? ==>
      (r.value.time == line.time && r.value.action == line.action &&
       r.value.kind == line.kind && r.value.symbol == line.symbol && r.value.name == line.name)
  {
    match (ZeroIfEmpty(line.qty), ZeroIfEmpty(line.price), ZeroIfEmpty(line.balance))
    case (Some(q), Some(p), Some(b)) =>
      Some(Entry(line.time, line.action, line.symbol, line.name, line.kind, q, p, b))
    case _ => None
  }

  /** The effect of the reading loop of `loadFromFile` on `entries`, and its
      result: blank lines are skipped, each other line appends one entry, and
      the first line with a bad number stops the load with `false`, keeping
      the entries appended before it. */
  function LoadLogLines(entries: seq<Entry>, lines: seq<LogLine>): (r: (seq<Entry>, bool))
    ensures entries <= r.0
    ensures |r.0| <= |entries| + |lines|
    decreases |lines|
  {
    if |lines| == 0 then (entries, true)
    else if lines[0].BlankLine? then LoadLogLines(entries, lines[1..])
    else match ParseEntry(lines[0])
      case None => (entries, false)
      case Some(e) => LoadLogLines(entries + [e], lines[1..])
  }

  /** Loading appends: the result is the entries already present followed by
      what the lines hold on their own, and success does not depend on the
      entries already present. */
  lemma {:induction false} LoadAppends(entries: seq<Entry>, lines: seq<LogLine>)
    ensures LoadLogLines(entries, lines).0 == entries + LoadLogLines([], lines).0
    ensures LoadLogLines(entries, lines).1 == LoadLogLines([], lines).1
    decreases |lines|
  {
    if |lines| > 0 {
      if lines[0].BlankLine? {
        LoadAppends(entries, lines[1..]);
      } else if ParseEntry(lines[0]).Some? {
        var e := ParseEntry(lines[0]).value;
        var rest := LoadLogLines([], lines[1..]);
        LoadAppends(entries + [e], lines[1..]);
        LoadAppends([e], lines[1..]);
        assert LoadLogLines(entries, lines) == LoadLogLines(entries + [e], lines[1..]);
        assert LoadLogLines([], lines) == LoadLogLines([] + [e], lines[1..]);
        assert [] + [e] == [e];
        assert entries + [e] + rest.0 == entries + ([e] + rest.0);
      }
    }
  }

  /** A line that is blank or whose numbers convert. */
  predicate Readable(line: LogLine)
  {
    line.BlankLine? || ParseEntry(line).Some?
  }

  /** A load that meets its first unreadable line at index `k` returns `false`
      with exactly the entries of the lines before `k` appended: nothing is
      rolled back. */
  lemma {:induction false} LoadStopsAtFirstBadLine(entries: seq<Entry>, lines: seq<LogLine>, k: nat)
    requires k < |lines| && !Readable(lines[k])
    requires forall i :: 0 <= i < k ==> Readable(lines[i])
    ensures LoadLogLines(entries, lines[..k]).1
    ensures LoadLogLines(entries, lines) == (LoadLogLines(entries, lines[..k]).0, false)
    decreases k
  {
    if k > 0 {
      assert lines[..k][1..] == lines[1..][..k - 1];
      assert lines[..k][0] == lines[0];
      var next := if lines[0].BlankLine? then entries else entries + [ParseEntry(lines[0]).value];
      LoadStopsAtFirstBadLine(next, lines[1..], k - 1);
    }
  }

  /** The line `saveToFile` writes for an entry, in the field order
      `time|action|type|symbol|name|qty|price|balanceAfter`. */
  function Record(e: Entry): (r: LogLine)
    ensures r.LogRecord? && ParseEntry(r) == Some(e)
  {
    LogRecord(e.time, e.action, e.kind, e.symbol, e.name,
              Number(e.qty), Number(e.price), Number(e.balanceAfter))
  }

  /** The save and load layouts agree field by field: reading the records
      written for `es` appends exactly `es`. (The real file passes the numbers
      through text with six significant digits, which this does not model.) */
  lemma {:induction false} RecordsReadBack(entries: seq<Entry>, es: seq<Entry>, lines: seq<LogLine>)
    requires |lines| == |es|
    requires forall i :: 0 <= i < |es| ==> lines[i] == Record(es[i])
    ensures LoadLogLines(entries, lines) == (entries + es, true)
    decreases |es|
  {
    if |es| > 0 {
      assert ParseEntry(lines[0]) == Some(es[0]);
      assert LoadLogLines(entries, lines) == LoadLogLines(entries + [es[0]], lines[1..]);
      RecordsReadBack(entries + [es[0]], es[1..], lines[1..]);
      assert entries + [es[0]] + es[1..] == entries + es;
    } else {
      assert entries + es == entries;
    }
  }

  /** `TransactionLog`: the entries in insertion order. */
  class TransactionLog {
    var entries: seq<Entry>

    constructor ()
      ensures entries == []
    {
      entries := [];
    }

    /** `add`: append one entry. The time stamp, which the program reads from
        the wall clock, is a parameter. */
    method Add(time: string, action: string, symbol: string, name: string, kind: string,
               qty: real, price: real, balanceAfter: real)
      modifies this
      ensures entries == old(entries) + [Entry(time, action, symbol, name, kind, qty, price, balanceAfter)]
    {
      entries := entries + [Entry(time, action, symbol, name, kind, qty, price, balanceAfter)];
    }

    /** `saveToFile`: the lines written, one record per entry, in order. */
    method SaveToFile() returns (lines: seq<LogLine>)
      ensures |lines| == |entries|
      ensures forall i :: 0 <= i < |entries| ==> lines[i] == Record(entries[i])
    {
      lines := [];
      var i := 0;
      while i < |entries|
        invariant 0 <= i <= |entries|
        invariant |lines| == i
        invariant forall j :: 0 <= j < i ==> lines[j] == Record(entries[j])
      {
        lines := lines + [Record(entries[i])];
        i := i + 1;
      }
    }

    /** `loadFromFile`: `file` is `None` when the file cannot be opened.
        Entries read are appended to those already present. */
    method LoadFromFile(file: Option<seq<LogLine>>) returns (ok: bool)
      modifies this
      ensures file.None? ==> !ok && entries == old(entries)
      ensures file.Some? ==> (entries, ok) == LoadLogLines(old(entries), file.value)
    {
      if file.None? {
        return false;
      }
      var lines := file.value;
      var i := 0;
      while i < |lines|
        invariant 0 <= i <= |lines|
        invariant LoadLogLines(old(entries), lines) == LoadLogLines(entries, lines[i..])
      {
        assert lines[i..][1..] == lines[i + 1..];
        if !lines[i].BlankLine? {
          var e := ParseEntry(lines[i]);
          if e.None? {
            return false;
          }
          entries := entries + [e.value];
        }
        i := i + 1;
      }
      return true;
    }
  }
}
