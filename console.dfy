/** The diagnostic console printer: an append-only buffer of formatted
    entries, of which `flush` emits the Debug ones and then empties. */
module Console {
  import opened Strings
  import opened Paths
  import opened Seqs

  /** One buffered diagnostic: its header ("Debug", "Info", ...) and the
      fully formatted message. */
  datatype ConsoleEntry = ConsoleEntry(header: string, message: string)

  /** The printer: the base name of the application directory, used to
      shorten positions, and the buffered entries. */
  class ConsolePrinter {
    var appRoot: string
    var entries: seq<ConsoleEntry>

    constructor (appRoot: string)
      ensures this.appRoot == appRoot && entries == []
    {
      this.appRoot := appRoot;
      entries := [];
    }
  }

  /** `EnableConsolePrinter`: a new printer for the application at
      `applicationPath`, with no entries. The package-level `printer`
      variable it assigns is the returned object. */
  method EnableConsolePrinter(applicationPath: string) returns (p: ConsolePrinter)
    ensures fresh(p)
    ensures p.appRoot == Base(applicationPath) && p.entries == []
  {
    p := new ConsolePrinter(Base(applicationPath));
  }

  /** The additional lines of a message: "\n" followed by each info, in order. */
  function InfoLines(infos: seq<string>): string
  {
    if infos == [] then "" else InfoLines(infos[..|infos| - 1]) + "\n" + infos[|infos| - 1]
  }

  /** The first line of a message: the header, ": ", the position followed by
      a space when there is one, and the message. */
  function HeadLine(header: string, pos: string, message: string): string
  {
    header + ": " + (if pos != "" then pos + " " else "") + message
  }

  /** The message `add` stores. */
  function FormatMessage(header: string, pos: string, message: string, infos: seq<string>): string
  {
    HeadLine(header, pos, message) + InfoLines(infos)
  }

  /** `add`: formats the message and appends one entry with the given
      header; a nil printer is left alone. `position` stands for
      `getPosition(pkg, node, appRoot)`: the position of the node being
      reported, as a function of the printer's application root. */
  method Add(p: ConsolePrinter?, position: string -> string, header: string, message: string, additionalInfo: seq<string>)
    modifies p
    ensures p != null ==>
      && p.appRoot == old(p.appRoot)
      && p.entries == old(p.entries) + [ConsoleEntry(header, FormatMessage(header, position(p.appRoot), message, additionalInfo))]
  {
    if p == null {
      return;
    }
    var pos := position(p.appRoot);
    var b := header + ":" + " ";
    if pos != "" {
      b := b + pos + " ";
    }
    b := b + message;
    ghost var head := b;
    assert head == HeadLine(header, pos, message);
    for n := 0 to |additionalInfo|
      invariant b == head + InfoLines(additionalInfo[..n])
    {
      assert additionalInfo[..n + 1][..n] == additionalInfo[..n];
      b := b + "\n" + additionalInfo[n];
    }
    assert additionalInfo[..|additionalInfo|] == additionalInfo;
    p.entries := p.entries + [ConsoleEntry(header, b)];
  }

  /** The messages of the entries whose header is `debugHeader`, in order. */
  function DebugMessages(entries: seq<ConsoleEntry>, debugHeader: string): seq<string>
  {
    if entries == [] then []
    else
      var e := entries[|entries| - 1];
      DebugMessages(entries[..|entries| - 1], debugHeader) + (if e.header == debugHeader then [e.message] else [])
  }

  /** `flush`: returns the lines it logs, the messages of the Debug entries
      in insertion order, and empties the buffer; a nil printer prints
      nothing. `debugHeader` stands for `DebugConsoleHeader`. */
  method Flush(p: ConsolePrinter?, debugHeader: string) returns (printed: seq<string>)
    modifies p
    ensures p == null ==> printed == []
    ensures p != null ==>
      && printed == DebugMessages(old(p.entries), debugHeader)
      && p.entries == [] && p.appRoot == old(p.appRoot)
  {
    printed := [];
    if p == null {
      return;
    }
    var entries := p.entries;
    for n := 0 to |entries|
      invariant printed == DebugMessages(entries[..n], debugHeader)
    {
      assert entries[..n + 1][..n] == entries[..n];
      if entries[n].header == debugHeader {
        printed := printed + [entries[n].message];
      }
    }
    assert entries[..|entries|] == entries;
    p.entries := [];
  }

  /** Flushing what was added in two batches prints the first batch's Debug
      messages, then the second's. */
  lemma {:induction false} DebugMessagesAppend(a: seq<ConsoleEntry>, b: seq<ConsoleEntry>, debugHeader: string)
    ensures DebugMessages(a + b, debugHeader) == DebugMessages(a, debugHeader) + DebugMessages(b, debugHeader)
    decreases |b|
  {
    if b == [] {
      assert a + b == a;
    } else {
      var b' := b[..|b| - 1];
      assert (a + b)[..|a + b| - 1] == a + b';
      assert (a + b)[|a + b| - 1] == b[|b| - 1];
      DebugMessagesAppend(a, b', debugHeader);
    }
  }

  /** A message is printed by `flush` exactly when some buffered entry with
      the Debug header carries it. */
  lemma {:induction false} DebugMessagesMembers(entries: seq<ConsoleEntry>, debugHeader: string, m: string)
    ensures m in DebugMessages(entries, debugHeader) <==> ConsoleEntry(debugHeader, m) in entries
    decreases |entries|
  {
    if entries != [] {
      var front := entries[..|entries| - 1];
      var e := entries[|entries| - 1];
      DebugMessagesMembers(front, debugHeader, m);
      assert entries == front + [e];
    }
  }

  /** `flush` never prints more lines than there are entries. */
  lemma {:induction false} DebugMessagesBound(entries: seq<ConsoleEntry>, debugHeader: string)
    ensures |DebugMessages(entries, debugHeader)| <= |entries|
    decreases |entries|
  {
    if entries != [] {
      DebugMessagesBound(entries[..|entries| - 1], debugHeader);
    }
  }

  /** An entry added with the Debug header is the last line the next
      `flush` prints. */
  lemma AddedDebugIsPrintedLast(entries: seq<ConsoleEntry>, debugHeader: string, message: string)
    ensures DebugMessages(entries + [ConsoleEntry(debugHeader, message)], debugHeader)
            == DebugMessages(entries, debugHeader) + [message]
  {
    var all := entries + [ConsoleEntry(debugHeader, message)];
    assert all[..|all| - 1] == entries;
  }

  /** An entry added with another header is never printed. */
  lemma AddedOtherIsNotPrinted(entries: seq<ConsoleEntry>, debugHeader: string, header: string, message: string)
    requires header != debugHeader
    ensures DebugMessages(entries + [ConsoleEntry(header, message)], debugHeader) == DebugMessages(entries, debugHeader)
  {
    var all := entries + [ConsoleEntry(header, message)];
    assert all[..|all| - 1] == entries;
  }

  /** When no part contains a line break, the lines of a stored message are
      its first line and then the additional infos, one per line. */
  lemma {:induction false} MessageLines(header: string, pos: string, message: string, infos: seq<string>)
    requires '\n' !in HeadLine(header, pos, message)
    requires forall i :: 0 <= i < |infos| ==> '\n' !in infos[i]
    ensures Split(FormatMessage(header, pos, message, infos), '\n') == [HeadLine(header, pos, message)] + infos
    decreases |infos|
  {
    var head := HeadLine(header, pos, message);
    if infos == [] {
      assert FormatMessage(header, pos, message, infos) == head;
      SplitWithoutSeparator(head, '\n');
    } else {
      var front := infos[..|infos| - 1];
      var last := infos[|infos| - 1];
      MessageLines(header, pos, message, front);
      var f := FormatMessage(header, pos, message, front);
      var lines := InfoLines(front);
      assert FormatMessage(header, pos, message, infos) == head + ((lines + "\n") + last);
      AppendAssociative(head, lines + "\n", last);
      AppendAssociative(head, lines, "\n");
      assert FormatMessage(header, pos, message, infos) == f + ['\n'] + last;
      SplitOneMore(f, last, [head] + front);
      FrontLast(infos);
      AppendAssociative([head], front, [last]);
    }
  }

  /** One more line after a line break adds one more piece. */
  lemma SplitOneMore(f: string, last: string, lines: seq<string>)
    requires Split(f, '\n') == lines && '\n' !in last
    ensures Split(f + ['\n'] + last, '\n') == lines + [last]
  {
    SplitAround(f, last, '\n');
    SplitWithoutSeparator(last, '\n');
  }

  /** The stored message of the console printer's test: header "Info", no
      position, message "message" and one additional info. */
  lemma InfoExample()
    ensures FormatMessage("Info", "", "message", ["additionalInfo"]) == "Info: message\nadditionalInfo"
  {
    assert ["additionalInfo"][..0] == [];
  }
}
