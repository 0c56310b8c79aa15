/** The body of updateTable (main.go:199-252) without its I/O: the nine
    column widths computed from the terminal width, the header row and one
    row per queue, the error-queue flag, the in-place styling of the header,
    and the alert decision that follows. */
module Dashboard {
  import opened Wrappers
  import opened GoStrings
  import opened Cells
  import opened Alerts

  datatype MessageStats = MessageStats(publish: int, deliverGet: int, ack: int)

  /** One decoded element of the management API's queue list. */
  datatype QueueInfo = QueueInfo(
    name: Bytes,
    vhost: Bytes,
    queueType: Bytes,
    state: Bytes,
    messages: int,
    messagesReady: int,
    messagesUnack: int,
    messageStats: MessageStats)

  type Row = seq<Bytes>

  // ----- column widths -----

  /** Go's integer division, which truncates toward zero. */
  function TruncDiv(a: int, b: int): (q: int)
    requires b > 0
    ensures 0 <= a ==> 0 <= a - q * b < b
    ensures a < 0 ==> -b < a - q * b <= 0
  {
    if a >= 0 then a / b else -((-a) / b)
  }

  /** `queueNameWidth := width / 3`. */
  function QueueNameWidth(width: int): int
  {
    TruncDiv(width, 3)
  }

  /** `otherColumnsWidth := (width - queueNameWidth - 4) / 7`. */
  function OtherColumnsWidth(width: int): int
  {
    TruncDiv(width - QueueNameWidth(width) - 4, 7)
  }

  /** The queue-name column, two columns of width 2, and six equal columns. */
  function ColumnWidths(width: int): (ws: seq<int>)
    ensures |ws| == 9
  {
    [QueueNameWidth(width), 2, 2] + seq(6, _ => OtherColumnsWidth(width))
  }

  function Sum(s: seq<int>): int
  {
    if s == [] then 0 else Sum(s[..|s| - 1]) + s[|s| - 1]
  }

  lemma {:induction false} SumSplit(a: seq<int>, b: seq<int>)
    ensures Sum(a + b) == Sum(a) + Sum(b)
    decreases |b|
  {
    if b == [] {
      assert a + b == a;
    } else {
      assert (a + b)[..|a + b| - 1] == a + b[..|b| - 1];
      SumSplit(a, b[..|b| - 1]);
    }
  }

  lemma {:induction false} SumConstant(n: nat, c: int)
    ensures Sum(seq(n, _ => c)) == n * c
  {
    if n > 0 {
      assert seq(n, _ => c)[..n - 1] == seq(n - 1, _ => c);
      SumConstant(n - 1, c);
    }
  }

  /** On any real terminal the widths are non-negative, and from five columns
      on they add up to no more than the terminal width. */
  lemma ColumnWidthsFit(width: int)
    ensures width >= 0 ==> forall i :: 0 <= i < 9 ==> ColumnWidths(width)[i] >= 0
    ensures width >= 0 ==> ColumnWidths(width)[0] == width / 3
    ensures width >= 5 ==> Sum(ColumnWidths(width)) <= width
  {
    var q, o := QueueNameWidth(width), OtherColumnsWidth(width);
    var ws := ColumnWidths(width);
    SumSplit([q, 2, 2], seq(6, _ => o));
    SumConstant(6, o);
    assert [q, 2, 2][..2] == [q, 2];
    assert [q, 2][..1] == [q];
    assert [q][..0] == [];
    assert Sum([q]) == q;
    assert Sum([q, 2]) == q + 2;
    assert Sum([q, 2, 2]) == q + 4;
    if width >= 5 {
      assert 7 * o <= width - q - 4;
    }
  }

  // ----- rows -----

  const Header: Row := [Ascii("Queue Name"), Ascii("T"), Ascii("S"), Ascii("Ready"),
                        Ascii("Unacked"), Ascii("Total"), Ascii("In"), Ascii("D/G"), Ascii("Ack")]

  const HeaderStyle: Bytes := Ascii("fg:black,bg:yellow")

  /** `queue.VHost + "/" + queue.Name`. */
  function QueueLabel(q: QueueInfo): Bytes
  {
    q.vhost + Ascii("/") + q.name
  }

  /** The row shown for one queue. */
  function DataRow(q: QueueInfo, queueNameWidth: int): Row
    requires TruncateDefined(QueueLabel(q), queueNameWidth)
  {
    [TruncateString(QueueLabel(q), queueNameWidth),
     SafeGetFirstChar(q.queueType),
     GetStateIndicator(q.state),
     ColorizeNumber(q.messagesReady),
     ColorizeNumber(q.messagesUnack),
     ColorizeNumber(q.messages),
     Decimal(q.messageStats.publish),
     Decimal(q.messageStats.deliverGet),
     Decimal(q.messageStats.ack)]
  }

  /** No queue label makes truncateString panic. */
  predicate LabelsFit(queues: seq<QueueInfo>, queueNameWidth: int)
  {
    forall k :: 0 <= k < |queues| ==> TruncateDefined(QueueLabel(queues[k]), queueNameWidth)
  }

  /** The queue rows, in the order of the queues. */
  function DataRows(queues: seq<QueueInfo>, queueNameWidth: int): (rows: seq<Row>)
    requires LabelsFit(queues, queueNameWidth)
    ensures |rows| == |queues|
  {
    if queues == [] then []
    else DataRows(queues[..|queues| - 1], queueNameWidth)
         + [DataRow(queues[|queues| - 1], queueNameWidth)]
  }

  lemma {:induction false} DataRowsAt(queues: seq<QueueInfo>, queueNameWidth: int, k: nat)
    requires LabelsFit(queues, queueNameWidth)
    requires k < |queues|
    ensures DataRows(queues, queueNameWidth)[k] == DataRow(queues[k], queueNameWidth)
    decreases |queues|
  {
    if k < |queues| - 1 {
      DataRowsAt(queues[..|queues| - 1], queueNameWidth, k);
    }
  }

  /** No header cell before column `n` makes truncateString panic. */
  predicate HeaderFitsBelow(width: int, n: nat)
  {
    forall i :: 0 <= i < n && i < 9 ==> TruncateDefined(Header[i], ColumnWidths(width)[i])
  }

  /** No header cell makes truncateString panic. */
  predicate HeaderFits(width: int)
  {
    HeaderFitsBelow(width, 9)
  }

  /** `fmt.Sprintf("[%s](fg:black,bg:yellow)", truncateString(text, w))`. */
  function HeaderCell(text: Bytes, w: int): Bytes
    requires TruncateDefined(text, w)
  {
    Styled(TruncateString(text, w), HeaderStyle)
  }

  /** The header row while the styling loop is at column `n`: the cells
      before `n` styled, the others still the raw titles. */
  function PartlyStyledHeader(width: int, n: nat): Row
    requires HeaderFitsBelow(width, n)
  {
    seq(9, i requires 0 <= i < 9 => if i < n then HeaderCell(Header[i], ColumnWidths(width)[i]) else Header[i])
  }

  function HeaderRow(width: int): Row
    requires HeaderFits(width)
  {
    PartlyStyledHeader(width, 9)
  }

  /** One step of the header loop styles cell `n`. */
  lemma StyleHeaderStep(width: int, n: nat)
    requires n < 9 && HeaderFitsBelow(width, n)
    requires TruncateDefined(Header[n], ColumnWidths(width)[n])
    ensures HeaderFitsBelow(width, n + 1)
    ensures PartlyStyledHeader(width, n)[n := HeaderCell(Header[n], ColumnWidths(width)[n])]
            == PartlyStyledHeader(width, n + 1)
  {
  }

  /** The update runs to the end without a panic. */
  predicate Renderable(queues: seq<QueueInfo>, width: int)
  {
    LabelsFit(queues, QueueNameWidth(width)) && HeaderFits(width)
  }

  /** The table's rows once updateTable has finished. */
  function RenderedRows(queues: seq<QueueInfo>, width: int): seq<Row>
    requires Renderable(queues, width)
  {
    [HeaderRow(width)] + DataRows(queues, QueueNameWidth(width))
  }

  predicate AnyErrorQueue(queues: seq<QueueInfo>)
  {
    exists k :: 0 <= k < |queues| && IsErrorQueue(queues[k].name)
  }

  /** Extending the queue list by one queue appends that queue's row. */
  lemma DataRowsSnoc(queues: seq<QueueInfo>, queueNameWidth: int, k: nat)
    requires k < |queues|
    requires LabelsFit(queues[..k], queueNameWidth)
    requires TruncateDefined(QueueLabel(queues[k]), queueNameWidth)
    ensures LabelsFit(queues[..k + 1], queueNameWidth)
    ensures [Header] + DataRows(queues[..k + 1], queueNameWidth)
            == [Header] + DataRows(queues[..k], queueNameWidth) + [DataRow(queues[k], queueNameWidth)]
  {
    assert queues[..k + 1][..k] == queues[..k];
  }

  /** The flag over one more queue is the old flag or that queue's test. */
  lemma AnyErrorQueueSnoc(queues: seq<QueueInfo>, k: nat)
    requires k < |queues|
    ensures AnyErrorQueue(queues[..k + 1]) == (AnyErrorQueue(queues[..k]) || IsErrorQueue(queues[k].name))
  {
    assert queues[..k + 1][k] == queues[k];
  }

  datatype Built = Built(rows: seq<Row>, errorQueuesFound: bool)

  /** The row-building loop: the raw header, then one row per queue in input
      order, and whether any queue is an error queue. It panics at the first
      queue whose label truncateString cannot cut. */
  method BuildRows(queues: seq<QueueInfo>, queueNameWidth: int) returns (out: Outcome<Built>)
    ensures out.Panic? <==> !LabelsFit(queues, queueNameWidth)
    ensures out.Done? ==> out.value.rows == [Header] + DataRows(queues, queueNameWidth)
    ensures out.Done? ==> (out.value.errorQueuesFound <==> AnyErrorQueue(queues))
  {
    var rows := [Header];
    var errorQueuesFound := false;
    for k := 0 to |queues|
      invariant LabelsFit(queues[..k], queueNameWidth)
      invariant rows == [Header] + DataRows(queues[..k], queueNameWidth)
      invariant errorQueuesFound == AnyErrorQueue(queues[..k])
    {
      var queue := queues[k];
      AnyErrorQueueSnoc(queues, k);
      if IsErrorQueue(queue.name) {
        errorQueuesFound := true;
      }
      if !TruncateDefined(QueueLabel(queue), queueNameWidth) {
        return Panic;
      }
      DataRowsSnoc(queues, queueNameWidth, k);
      rows := rows + [DataRow(queue, queueNameWidth)];
    }
    assert queues[..|queues|] == queues;
    return Done(Built(rows, errorQueuesFound));
  }

  /** The table widget's two fields that updateTable assigns. */
  class Table {
    var columnWidths: seq<int>
    var rows: seq<Row>

    constructor ()
      ensures columnWidths == [] && rows == []
    {
      columnWidths := [];
      rows := [];
    }

    /** The width loop: the name column, two narrow columns, and six
        columns sharing what is left. */
    method SetColumnWidths(width: int)
      modifies this
      ensures columnWidths == ColumnWidths(width)
      ensures rows == old(rows)
    {
      var queueNameWidth := TruncDiv(width, 3);
      var otherColumnsWidth := TruncDiv(width - queueNameWidth - 4, 7);
      columnWidths := [queueNameWidth, 2, 2];
      for i := 0 to 6
        invariant columnWidths == [queueNameWidth, 2, 2] + seq(i, _ => otherColumnsWidth)
        invariant rows == old(rows)
      {
        columnWidths := columnWidths + [otherColumnsWidth];
      }
    }

    /** The header loop: styles the cells of row 0 in place, one column at a
        time, and reports a panic at the first title that cannot be cut. */
    method StyleHeader(width: int) returns (ok: bool)
      requires columnWidths == ColumnWidths(width)
      requires |rows| >= 1 && rows[0] == Header
      modifies this
      ensures columnWidths == old(columnWidths)
      ensures ok <==> HeaderFits(width)
      ensures ok ==> rows == old(rows)[0 := HeaderRow(width)]
    {
      assert rows[0] == PartlyStyledHeader(width, 0);
      for i := 0 to |rows[0]|
        invariant columnWidths == old(columnWidths)
        invariant HeaderFitsBelow(width, i)
        invariant rows == old(rows)[0 := PartlyStyledHeader(width, i)]
      {
        assert rows[0][i] == Header[i];
        if !TruncateDefined(rows[0][i], columnWidths[i]) {
          return false;
        }
        StyleHeaderStep(width, i);
        rows := rows[0 := rows[0][i := HeaderCell(rows[0][i], columnWidths[i])]];
      }
      return true;
    }

    /** Lays the queues out for a terminal `width` columns wide. A panic
        leaves the rows unspecified (the process ends). */
    method Update(queues: seq<QueueInfo>, width: int) returns (out: Outcome<bool>)
      modifies this
      ensures columnWidths == ColumnWidths(width)
      ensures out.Panic? <==> !Renderable(queues, width)
      ensures out.Done? ==> rows == RenderedRows(queues, width)
      ensures out.Done? ==> (out.value <==> AnyErrorQueue(queues))
    {
      SetColumnWidths(width);
      var built := BuildRows(queues, QueueNameWidth(width));
      if built.Panic? {
        return Panic;
      }
      rows := built.value.rows;
      var ok := StyleHeader(width);
      if !ok {
        return Panic;
      }
      return Done(built.value.errorQueuesFound);
    }
  }

  // ----- properties of the rendered table -----

  lemma {:induction false} DataRowsWidth(queues: seq<QueueInfo>, queueNameWidth: int)
    requires LabelsFit(queues, queueNameWidth)
    ensures forall k :: 0 <= k < |queues| ==> |DataRows(queues, queueNameWidth)[k]| == 9
    decreases |queues|
  {
    if queues != [] {
      var prefix := queues[..|queues| - 1];
      assert LabelsFit(prefix, queueNameWidth) by {
        forall k | 0 <= k < |prefix|
          ensures TruncateDefined(QueueLabel(prefix[k]), queueNameWidth)
        {
          assert prefix[k] == queues[k];
        }
      }
      DataRowsWidth(prefix, queueNameWidth);
    }
  }

  /** Every row, the header included, has one cell per column width. */
  lemma RenderedShape(queues: seq<QueueInfo>, width: int)
    requires Renderable(queues, width)
    ensures |RenderedRows(queues, width)| == |queues| + 1
    ensures forall r :: 0 <= r < |queues| + 1 ==>
              |RenderedRows(queues, width)[r]| == |ColumnWidths(width)| == 9
  {
    var rows, data := RenderedRows(queues, width), DataRows(queues, QueueNameWidth(width));
    DataRowsWidth(queues, QueueNameWidth(width));
    assert |rows| == |queues| + 1;
    forall r | 0 <= r < |rows|
      ensures |rows[r]| == 9
    {
      if r == 0 {
        assert rows[0] == HeaderRow(width);
      } else {
        assert rows[r] == data[r - 1];
      }
    }
  }

  /** Row `k + 1` shows queue `k`: its label cut or padded to the name column,
      its type initial, its state glyph and its three coloured counts. */
  lemma RenderedQueueRow(queues: seq<QueueInfo>, width: int, k: nat)
    requires Renderable(queues, width)
    requires k < |queues|
    ensures |RenderedRows(queues, width)[k + 1]| == 9
    ensures var row := RenderedRows(queues, width)[k + 1];
      && row[0] == TruncateString(QueueLabel(queues[k]), QueueNameWidth(width))
      && |row[0]| == ColumnWidths(width)[0]
      && row[1] == SafeGetFirstChar(queues[k].queueType)
      && row[2] == GetStateIndicator(queues[k].state)
      && row[3] == ColorizeNumber(queues[k].messagesReady)
      && row[4] == ColorizeNumber(queues[k].messagesUnack)
      && row[5] == ColorizeNumber(queues[k].messages)
  {
    DataRowsAt(queues, QueueNameWidth(width), k);
    assert RenderedRows(queues, width)[k + 1] == DataRows(queues, QueueNameWidth(width))[k];
  }

  /** Header cell `i` is the column title fitted to column `i` and styled. */
  lemma RenderedHeader(queues: seq<QueueInfo>, width: int, i: nat)
    requires Renderable(queues, width)
    requires i < 9
    ensures TruncateDefined(Header[i], ColumnWidths(width)[i])
    ensures RenderedRows(queues, width)[0][i]
              == Styled(TruncateString(Header[i], ColumnWidths(width)[i]), HeaderStyle)
    ensures |TruncateString(Header[i], ColumnWidths(width)[i])| == ColumnWidths(width)[i]
  {
  }

  /** updateTable runs without a panic exactly on terminals at least 37
      columns wide, whatever the queues: below that, a header title is longer
      than its column and the column is too narrow for "...". */
  lemma RenderableIff(queues: seq<QueueInfo>, width: int)
    ensures Renderable(queues, width) <==> width >= 37
  {
    var ws := ColumnWidths(width);
    if width >= 37 {
      assert QueueNameWidth(width) >= 12;
      assert OtherColumnsWidth(width) >= 3;
      assert forall i :: 0 <= i < 9 ==> TruncateDefined(Header[i], ws[i]);
    } else if width < 9 {
      assert !TruncateDefined(Header[0], ws[0]);
    } else {
      assert OtherColumnsWidth(width) < 3;
      assert !TruncateDefined(Header[8], ws[8]);
    }
  }

  // ----- the whole update -----

  const AlertText: Bytes := Ascii("ALERT: Error queue(s) detected!")
  const NoAlertText: Bytes := Ascii("No error queues detected.")

  /** What one run of updateTable shows. */
  datatype Refresh = FetchFailed | Panicked | Rendered(alertText: Bytes, alertPlayed: bool)

  /** One run of updateTable. `fetched` is what getQueues returned (`None` for
      an error); `now` and `finished` are the clock readings at the start and
      end of the alert tone. */
  method UpdateTable(table: Table, clock: AlertClock, fetched: Option<seq<QueueInfo>>,
                     width: int, now: int, finished: int) returns (r: Refresh)
    modifies table, clock
    ensures fetched.None? ==> r == FetchFailed && unchanged(table, clock)
    ensures fetched.Some? ==> table.columnWidths == ColumnWidths(width)
    ensures fetched.Some? && !Renderable(fetched.value, width) ==>
              r == Panicked && unchanged(clock)
    ensures fetched.Some? && Renderable(fetched.value, width) ==>
              && table.rows == RenderedRows(fetched.value, width)
              && r.Rendered?
              && r.alertText == (if AnyErrorQueue(fetched.value) then AlertText else NoAlertText)
              && (r.alertPlayed <==> AnyErrorQueue(fetched.value) &&
                                     CooldownElapsed(old(clock.lastAlertTime), now))
              && clock.lastAlertTime == (if AnyErrorQueue(fetched.value)
                                         then Step(old(clock.lastAlertTime), Call(now, finished))
                                         else old(clock.lastAlertTime))
  {
    if fetched.None? {
      return FetchFailed;
    }
    var errorQueuesFound := table.Update(fetched.value, width);
    if errorQueuesFound.Panic? {
      return Panicked;
    }
    if errorQueuesFound.value {
      var played := clock.PlayAlertSound(now, finished);
      return Rendered(AlertText, played);
    }
    return Rendered(NoAlertText, false);
  }
}
