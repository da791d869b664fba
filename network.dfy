/**
 * Discovery of the interface that carries the default route, from the text
 * of the kernel's routing table (one header line, then one tab-separated
 * row per route), and the loopback fallback of the address lookup.
 */
module Network {
  import opened Results
  import Decimal

  const TAB: char := '\t'
  const NEWLINE: char := '\n'
  const LOOPBACK: string := "127.0.0.1"

  /** `row.rstrip('\n')`: every trailing newline is removed. */
  function StripNewlines(row: string): (r: string)
    ensures |r| <= |row| && r == row[..|r|]
    ensures forall i :: |r| <= i < |row| ==> row[i] == NEWLINE
    ensures r != [] ==> r[|r| - 1] != NEWLINE
  {
    if row != [] && row[|row| - 1] == NEWLINE then
      var r := StripNewlines(row[..|row| - 1]);
      assert row[..|row| - 1][..|r|] == row[..|r|];
      r
    else row
  }

  /** `s.split(sep)`: the maximal sep-free pieces between separators, at least one. */
  function Split(s: string, sep: char): (fields: seq<string>)
    ensures |fields| >= 1
    ensures forall i :: 0 <= i < |fields| ==> sep !in fields[i]
  {
    if s == [] then [""]
    else if s[0] == sep then [""] + Split(s[1..], sep)
    else
      var rest := Split(s[1..], sep);
      [[s[0]] + rest[0]] + rest[1..]
  }

  /** `sep.join(fields)`. */
  function Join(fields: seq<string>, sep: char): string
    requires |fields| >= 1
  {
    if |fields| == 1 then fields[0] else fields[0] + [sep] + Join(fields[1..], sep)
  }

  /** Splitting loses nothing: joining the fields gives the string back. */
  lemma {:induction false} JoinSplit(s: string, sep: char)
    ensures Join(Split(s, sep), sep) == s
  {
    if s != [] {
      JoinSplit(s[1..], sep);
      var rest := Split(s[1..], sep);
      if s[0] != sep {
        var fields := Split(s, sep);
        if |rest| == 1 {
          assert fields == [[s[0]] + rest[0]];
        } else {
          assert fields[1..] == rest[1..];
          assert Join(rest, sep) == rest[0] + [sep] + Join(rest[1..], sep);
        }
      }
    }
  }

  /** Splitting undoes joining, for fields that do not contain the separator. */
  lemma {:induction false} SplitJoin(fields: seq<string>, sep: char)
    requires |fields| >= 1
    requires forall i :: 0 <= i < |fields| ==> sep !in fields[i]
    ensures Split(Join(fields, sep), sep) == fields
  {
    if |fields| == 1 {
      SplitField(fields[0], [], sep);
    } else {
      SplitJoin(fields[1..], sep);
      SplitField(fields[0], Join(fields[1..], sep), sep);
    }
  }

  /** Split of a sep-free field followed by a separator and a tail. */
  lemma {:induction false} SplitField(f: string, tail: string, sep: char)
    requires sep !in f
    ensures tail == [] ==> Split(f, sep) == [f]
    ensures Split(f + [sep] + tail, sep) == [f] + Split(tail, sep)
  {
    if f != [] {
      SplitField(f[1..], tail, sep);
      assert (f + [sep] + tail)[1..] == f[1..] + [sep] + tail;
      assert [f[0]] + f[1..] == f;
    } else {
      assert f + [sep] + tail == [sep] + tail;
    }
  }

  /**
   * One line of the table as its list of fields: at least one, none holding
   * a tab, and together with tabs between them exactly the line without its
   * trailing newlines.
   */
  function Fields(line: string): (items: seq<string>)
    ensures |items| >= 1 && forall i :: 0 <= i < |items| ==> TAB !in items[i]
    ensures Join(items, TAB) == StripNewlines(line)
  {
    var items := Split(StripNewlines(line), TAB);
    JoinSplit(StripNewlines(line), TAB);
    items
  }

  /** `__parse_table(iterable)`: each line stripped of newlines and split on tabs. */
  function ParseTable(lines: seq<string>): (rows: seq<seq<string>>)
    ensures |rows| == |lines|
    ensures forall i :: 0 <= i < |lines| ==> rows[i] == Fields(lines[i])
  {
    if lines == [] then [] else [Fields(lines[0])] + ParseTable(lines[1..])
  }

  /** Every row rebuilds its line once the trailing newlines are put back aside. */
  lemma RowsRejoin(lines: seq<string>, i: nat)
    requires i < |lines|
    ensures |ParseTable(lines)[i]| >= 1
    ensures Join(ParseTable(lines)[i], TAB) == StripNewlines(lines[i])
    ensures forall j :: 0 <= j < |ParseTable(lines)[i]| ==> TAB !in ParseTable(lines)[i][j]
  {
    JoinSplit(StripNewlines(lines[i]), TAB);
  }

  /**
   * The test `int(items[3]) & 1 and int(items[1]) == 0`. Bit 0 of Python's
   * two's-complement `&` is the Euclidean remainder modulo 2. The
   * destination field is parsed only when the flags field is odd.
   */
  function IsDefaultRoute(items: seq<string>): (r: Result<bool>)
    ensures |items| <= 3 ==> r == Err(IndexError)
    ensures r == Ok(true) <==>
      |items| > 3 && Decimal.ParseInt(items[3]).Ok? && Decimal.ParseInt(items[3]).value % 2 == 1 &&
      Decimal.ParseInt(items[1]) == Ok(0)
    ensures r.Err? ==> r.error == IndexError || r.error == ValueError
  {
    if |items| <= 3 then Err(IndexError)
    else
      match Decimal.ParseInt(items[3])
      case Err(e) => Err(e)
      case Ok(flags) =>
        if flags % 2 == 0 then Ok(false)
        else
          match Decimal.ParseInt(items[1])
          case Err(e) => Err(e)
          case Ok(destination) => Ok(destination == 0)
  }

  /**
   * The loop of get_default_iface: field 0 of the first row that passes the
   * test. An interface it returns, and an error it raises, come from a row.
   */
  function FirstDefault(rows: seq<seq<string>>): (r: Result<Option<string>>)
    requires forall i :: 0 <= i < |rows| ==> |rows[i]| >= 1
    ensures r.Ok? && r.value.Some? ==>
      exists i :: 0 <= i < |rows| && IsDefaultRoute(rows[i]) == Ok(true) && rows[i][0] == r.value.value
    ensures r.Err? ==> exists i :: 0 <= i < |rows| && IsDefaultRoute(rows[i]) == Err(r.error)
  {
    if rows == [] then Ok(None)
    else
      match IsDefaultRoute(rows[0])
      case Err(e) => Err(e)
      case Ok(true) => Ok(Some(rows[0][0]))
      case Ok(false) =>
        var r := FirstDefault(rows[1..]);
        assert r.Ok? && r.value.Some? ==> exists i :: 1 <= i < |rows| && IsDefaultRoute(rows[i]) == Ok(true) && rows[i][0] == r.value.value by {
          if r.Ok? && r.value.Some? {
            var i :| 0 <= i < |rows| - 1 && IsDefaultRoute(rows[1..][i]) == Ok(true) && rows[1..][i][0] == r.value.value;
            assert rows[i + 1] == rows[1..][i];
          }
        }
        assert r.Err? ==> exists i :: 1 <= i < |rows| && IsDefaultRoute(rows[i]) == Err(r.error) by {
          if r.Err? {
            var i :| 0 <= i < |rows| - 1 && IsDefaultRoute(rows[1..][i]) == Err(r.error);
            assert rows[i + 1] == rows[1..][i];
          }
        }
        r
  }

  /**
   * `get_default_iface()` over the lines of the table; the first line is the
   * header. An interface it returns is field 0 of a later line that passes
   * the test.
   */
  function DefaultIface(lines: seq<string>): (r: Result<Option<string>>)
    ensures |lines| <= 1 ==> r == Ok(None)
    ensures r.Ok? && r.value.Some? ==>
      exists i :: 1 <= i < |lines| && IsDefaultRoute(Fields(lines[i])) == Ok(true) && Fields(lines[i])[0] == r.value.value
  {
    if lines == [] then Ok(None)
    else
      var rows := ParseTable(lines[1..]);
      var r := FirstDefault(rows);
      assert r.Ok? && r.value.Some? ==>
        exists i :: 1 <= i < |lines| && IsDefaultRoute(Fields(lines[i])) == Ok(true) && Fields(lines[i])[0] == r.value.value by {
        if r.Ok? && r.value.Some? {
          var i :| 0 <= i < |rows| && IsDefaultRoute(rows[i]) == Ok(true) && rows[i][0] == r.value.value;
          assert rows[i] == Fields(lines[i + 1]);
        }
      }
      r
  }

  /**
   * `find_ip()`: the loopback address when there is no default interface,
   * otherwise what the interface lookup yields (that lookup is a parameter).
   * An exception from get_default_iface propagates.
   */
  function FindIp(lines: seq<string>, addressOf: string -> Option<string>): (r: Result<Option<string>>)
    ensures DefaultIface(lines) == Ok(None) ==> r == Ok(Some(LOOPBACK))
    ensures forall iface :: DefaultIface(lines) == Ok(Some(iface)) ==> r == Ok(addressOf(iface))
    ensures DefaultIface(lines).Err? ==> r == Err(DefaultIface(lines).error)
  {
    match DefaultIface(lines)
    case Err(e) => Err(e)
    case Ok(None) => Ok(Some(LOOPBACK))
    case Ok(Some(iface)) => Ok(addressOf(iface))
  }

  /**
   * `get_default_iface()` returns field 0 of the earliest matching line after
   * the header, when every line between them is rejected without raising.
   */
  lemma DefaultIfaceFirst(lines: seq<string>, k: nat)
    requires 1 <= k < |lines|
    requires forall j :: 1 <= j < k ==> IsDefaultRoute(Fields(lines[j])) == Ok(false)
    requires IsDefaultRoute(Fields(lines[k])) == Ok(true)
    ensures DefaultIface(lines) == Ok(Some(Fields(lines[k])[0]))
  {
    FirstDefaultAt(ParseTable(lines[1..]), k - 1, []);
  }

  /** No row before k passes the test, and none of them raises. */
  ghost predicate NoMatchBefore(rows: seq<seq<string>>, k: nat)
    requires k <= |rows|
  {
    forall j :: 0 <= j < k ==> IsDefaultRoute(rows[j]) == Ok(false)
  }

  /**
   * The earliest passing row decides: with rows 0..k-1 failing the test
   * without raising and row k passing it, the result is field 0 of row k
   * whatever rows follow k.
   */
  lemma {:induction false} FirstDefaultAt(rows: seq<seq<string>>, k: nat, later: seq<seq<string>>)
    requires k < |rows|
    requires forall i :: 0 <= i < |rows| ==> |rows[i]| >= 1
    requires forall i :: 0 <= i < |later| ==> |later[i]| >= 1
    requires NoMatchBefore(rows, k) && IsDefaultRoute(rows[k]) == Ok(true)
    ensures FirstDefault(rows) == Ok(Some(rows[k][0]))
    ensures FirstDefault(rows[..k + 1] + later) == Ok(Some(rows[k][0]))
  {
    if k > 0 {
      assert IsDefaultRoute(rows[0]) == Ok(false);
      FirstDefaultAt(rows[1..], k - 1, later);
      assert (rows[..k + 1] + later)[1..] == rows[1..][..k] + later;
    }
  }

  /** A row that raises, reached before any passing row, makes the whole lookup raise. */
  lemma {:induction false} FirstDefaultRaises(rows: seq<seq<string>>, k: nat)
    requires k < |rows|
    requires forall i :: 0 <= i < |rows| ==> |rows[i]| >= 1
    requires NoMatchBefore(rows, k) && IsDefaultRoute(rows[k]).Err?
    ensures FirstDefault(rows) == Err(IsDefaultRoute(rows[k]).error)
  {
    if k > 0 {
      assert IsDefaultRoute(rows[0]) == Ok(false);
      FirstDefaultRaises(rows[1..], k - 1);
    }
  }

  /** None exactly when every row fails the test without raising. */
  lemma {:induction false} FirstDefaultNone(rows: seq<seq<string>>)
    requires forall i :: 0 <= i < |rows| ==> |rows[i]| >= 1
    ensures FirstDefault(rows) == Ok(None) <==> NoMatchBefore(rows, |rows|)
  {
    if rows != [] {
      FirstDefaultNone(rows[1..]);
      if IsDefaultRoute(rows[0]) == Ok(false) {
        assert NoMatchBefore(rows, |rows|) <==> NoMatchBefore(rows[1..], |rows| - 1) by {
          forall j | 0 < j < |rows| ensures rows[j] == rows[1..][j - 1] {}
        }
      }
    }
  }

  /** Every outcome of the search is explained by its earliest decisive row. */
  lemma {:induction false} FirstDefaultCases(rows: seq<seq<string>>)
    requires forall i :: 0 <= i < |rows| ==> |rows[i]| >= 1
    ensures FirstDefault(rows).Ok? && FirstDefault(rows).value.Some? ==>
      exists k :: 0 <= k < |rows| && NoMatchBefore(rows, k) && IsDefaultRoute(rows[k]) == Ok(true)
        && FirstDefault(rows).value.value == rows[k][0]
    ensures FirstDefault(rows).Err? ==>
      exists k :: 0 <= k < |rows| && NoMatchBefore(rows, k) && IsDefaultRoute(rows[k]) == Err(FirstDefault(rows).error)
  {
    if rows != [] && IsDefaultRoute(rows[0]) == Ok(false) {
      FirstDefaultCases(rows[1..]);
      var r := FirstDefault(rows[1..]);
      if r.Ok? && r.value.Some? {
        var k :| 0 <= k < |rows| - 1 && NoMatchBefore(rows[1..], k) && IsDefaultRoute(rows[1..][k]) == Ok(true)
          && r.value.value == rows[1..][k][0];
        NoMatchShift(rows, k);
      }
      if r.Err? {
        var k :| 0 <= k < |rows| - 1 && NoMatchBefore(rows[1..], k) && IsDefaultRoute(rows[1..][k]) == Err(r.error);
        NoMatchShift(rows, k);
      }
    } else if rows != [] {
      assert NoMatchBefore(rows, 0);
    }
  }

  /** A first row that does not match extends a match-free prefix of the rest by one. */
  lemma NoMatchShift(rows: seq<seq<string>>, k: nat)
    requires k < |rows| - 1 && IsDefaultRoute(rows[0]) == Ok(false) && NoMatchBefore(rows[1..], k)
    ensures NoMatchBefore(rows, k + 1) && rows[k + 1] == rows[1..][k]
  {
    forall j | 0 < j < k + 1 ensures rows[j] == rows[1..][j - 1] {}
  }

  /** The header line is never examined: any first line gives the same result. */
  lemma HeaderIgnored(header1: string, header2: string, rows: seq<string>)
    ensures DefaultIface([header1] + rows) == DefaultIface([header2] + rows)
  {
    assert ([header1] + rows)[1..] == rows == ([header2] + rows)[1..];
  }

  /** A table with only a header, or no line at all, has no default interface. */
  lemma EmptyTable(header: string)
    ensures DefaultIface([header]) == Ok(None)
    ensures DefaultIface([]) == Ok(None)
  {
    assert [header][1..] == [];
  }

  /** A row with fewer than four fields raises IndexError instead of being skipped. */
  lemma ShortRowRaises(items: seq<string>)
    requires |items| < 4
    ensures IsDefaultRoute(items) == Err(IndexError)
  {
  }

  /** The flags text "0001" reads as 1: the up flag is set. */
  lemma UpFlags()
    ensures Decimal.ParseInt("0001") == Ok(1)
  {
    assert "0"[..0] == [] && "00"[..1] == "0" && "000"[..2] == "00" && "0001"[..3] == "000";
    assert Decimal.DigitsValue("0") == 0;
    assert Decimal.DigitsValue("00") == 0;
    assert Decimal.DigitsValue("000") == 0;
    assert Decimal.DigitsValue("0001") == 1;
    assert Decimal.IsUnsigned("0001");
  }

  /**
   * The kernel writes the destination in hexadecimal. With the up flag set,
   * a route to 192.168.2.0 ("0002A8C0") makes int() raise ValueError.
   */
  lemma HexDestinationRaises()
    ensures IsDefaultRoute(["eth0", "0002A8C0", "00000000", "0001"]) == Err(ValueError)
  {
    UpFlags();
    var destination := "0002A8C0";
    assert !Decimal.IsDigit(destination[4]);
    assert !Decimal.IsUnsigned(destination) && !Decimal.IsSigned(destination);
  }

  /**
   * So a table whose first route is such a row ends the lookup with an
   * error instead of skipping it, whatever rows follow.
   */
  lemma HexRouteFirstRaises(later: seq<seq<string>>)
    requires forall i :: 0 <= i < |later| ==> |later[i]| >= 1
    ensures FirstDefault([["eth0", "0002A8C0", "00000000", "0001"]] + later) == Err(ValueError)
  {
    HexDestinationRaises();
    var rows := [["eth0", "0002A8C0", "00000000", "0001"]] + later;
    assert rows[0] == ["eth0", "0002A8C0", "00000000", "0001"];
  }

  /** A flags field that is not an integer raises ValueError. */
  lemma BadFlagsRaise(items: seq<string>)
    requires |items| >= 4 && Decimal.ParseInt(items[3]).Err?
    ensures IsDefaultRoute(items) == Err(ValueError)
  {
  }

  /**
   * `and` short-circuits: when bit 0 of the flags is clear the destination
   * field is not parsed, so replacing it by anything (even text that int()
   * rejects) changes nothing.
   */
  lemma FlagsShortCircuit(items: seq<string>, destination: string)
    requires |items| >= 4
    requires Decimal.ParseInt(items[3]).Ok? && Decimal.ParseInt(items[3]).value % 2 == 0
    ensures IsDefaultRoute(items) == Ok(false)
    ensures IsDefaultRoute(items[1 := destination]) == Ok(false)
  {
  }

  /** With bit 0 set the row passes exactly when the destination parses to 0. */
  lemma FlagsSetDecides(items: seq<string>)
    requires |items| >= 4
    requires Decimal.ParseInt(items[3]).Ok? && Decimal.ParseInt(items[3]).value % 2 == 1
    ensures IsDefaultRoute(items) == Ok(true) <==> Decimal.ParseInt(items[1]) == Ok(0)
    ensures IsDefaultRoute(items).Err? <==> Decimal.ParseInt(items[1]).Err?
  {
  }

  /** find_ip falls back to loopback exactly when get_default_iface returns None. */
  lemma FallbackExactly(lines: seq<string>, addressOf: string -> Option<string>)
    requires forall iface :: addressOf(iface) != Some(LOOPBACK)
    ensures FindIp(lines, addressOf) == Ok(Some(LOOPBACK)) <==> DefaultIface(lines) == Ok(None)
  {
  }
}
