/** The database connector's pure parts: the identity column every lookup
    defaults to, the list of already-processed record keys and the SQL
    exclusion clause built from it, and the mapping of the "kinds" query's
    rows to text. Connections and query execution are not modelled. */
module DbConnector {
  import opened PyCore

  /** The tracker's identity column. */
  const INDEX_COLUMN: string := "rutmk_uid"

  /** `", ".join("'" + ind + "'" for ind in ids)`: every id in single
      quotes, verbatim, in order, separated by a comma and a space. */
  function QuotedList(ids: seq<string>): string
  {
    if ids == [] then ""
    else if |ids| == 1 then "'" + ids[0] + "'"
    else "'" + ids[0] + "', " + QuotedList(ids[1..])
  }

  /** The clause `DBIndexTrackProcessed.where` builds for a list of used ids. */
  function WhereClause(used: seq<string>): (w: string)
    ensures used == [] ==> w == "(true)"
    ensures used != [] ==> w == "(" + INDEX_COLUMN + " NOT IN (" + QuotedList(used) + "))"
  {
    if |used| == 0 then "(true)" else "(" + INDEX_COLUMN + " NOT IN (" + QuotedList(used) + "))"
  }

  predicate NoQuote(ids: seq<string>)
  {
    forall i :: 0 <= i < |ids| ==> '\'' !in ids[i]
  }

  /** Adding an id to a non-empty list extends the clause by one quoted item
      just before its closing brackets. */
  lemma {:induction false} QuotedListAppend(ids: seq<string>, x: string)
    requires ids != []
    ensures QuotedList(ids + [x]) == QuotedList(ids) + ", '" + x + "'"
    decreases |ids|
  {
    var head := "'" + ids[0];
    if |ids| == 1 {
      assert (ids + [x])[1..] == [x];
      assert QuotedList(ids + [x]) == head + "', " + QuotedList([x]);
      JoinLast(head, x);
    } else {
      var rest := QuotedList(ids[1..]);
      assert (ids + [x])[1..] == ids[1..] + [x];
      QuotedListAppend(ids[1..], x);
      assert QuotedList(ids + [x]) == head + "', " + QuotedList(ids[1..] + [x]);
      JoinMore(head + "', ", rest, ", '" + x + "'");
    }
  }

  lemma JoinLast(head: string, x: string)
    ensures head + "', " + ("'" + x + "'") == head + "'" + ", '" + x + "'"
  {
    assert "', " + ("'" + x + "'") == "'" + (", '" + x + "'");
  }

  lemma JoinMore(a: string, b: string, c: string)
    ensures a + (b + c) == a + b + c
  {
  }

  lemma WhereAppend(used: seq<string>, x: string)
    requires used != []
    ensures WhereClause(used + [x])
         == "(" + INDEX_COLUMN + " NOT IN (" + QuotedList(used) + ", '" + x + "'))"
  {
    QuotedListAppend(used, x);
  }

  /** Two quote-free prefixes followed by a quote can only match if they are equal. */
  lemma {:induction false} SplitAtQuote(x: string, y: string, r1: string, r2: string)
    requires '\'' !in x && '\'' !in y
    requires x + "'" + r1 == y + "'" + r2
    ensures x == y && r1 == r2
    decreases |x|
  {
    if x == [] {
      var whole := y + "'" + r2;
      if y != [] {
        QuoteHead(x, r1);
        QuoteHead(y, r2);
        assert false;
      }
      assert whole == "'" + r2;
      assert r1 == ("'" + r1)[1..];
      assert r2 == ("'" + r2)[1..];
    } else {
      var whole := x + "'" + r1;
      assert whole[0] == x[0];
      assert x[0] in x;
      if y == [] {
        QuoteHead(x, r1);
        QuoteHead(y, r2);
        assert false;
      }
      assert whole == y + "'" + r2;
      assert whole[0] == y[0];
      assert whole[1..] == x[1..] + "'" + r1;
      assert whole[1..] == y[1..] + "'" + r2;
      SplitAtQuote(x[1..], y[1..], r1, r2);
      assert x == [x[0]] + x[1..] && y == [y[0]] + y[1..];
    }
  }

  /** The first character of a prefix followed by a quote. */
  lemma QuoteHead(p: string, r: string)
    ensures p == [] ==> (p + "'" + r)[0] == '\''
    ensures p != [] ==> (p + "'" + r)[0] == p[0] && p[0] in p
  {
  }

  /** Without quotes inside the ids, the quoted list determines the ids. */
  lemma {:induction false} QuotedListInjective(a: seq<string>, b: seq<string>)
    requires NoQuote(a) && NoQuote(b)
    requires QuotedList(a) == QuotedList(b)
    ensures a == b
    decreases |a|
  {
    if a != [] && b != [] {
      var ta := if |a| == 1 then "" else ", " + QuotedList(a[1..]);
      var tb := if |b| == 1 then "" else ", " + QuotedList(b[1..]);
      assert QuotedList(a) == "'" + (a[0] + "'" + ta);
      assert QuotedList(b) == "'" + (b[0] + "'" + tb);
      assert a[0] + "'" + ta == QuotedList(a)[1..];
      assert b[0] + "'" + tb == QuotedList(b)[1..];
      assert '\'' !in a[0] && '\'' !in b[0];
      SplitAtQuote(a[0], b[0], ta, tb);
      if |a| == 1 || |b| == 1 {
        assert |a| != 1 ==> |ta| > 0;
        assert |b| != 1 ==> |tb| > 0;
      } else {
        assert QuotedList(a[1..]) == ta[2..] && QuotedList(b[1..]) == tb[2..];
        assert NoQuote(a[1..]) && NoQuote(b[1..]);
        QuotedListInjective(a[1..], b[1..]);
        assert a == [a[0]] + a[1..] && b == [b[0]] + b[1..];
      }
    }
  }

  /** When no id holds a quote, the clause names exactly the ids that were added. */
  lemma WhereInjective(a: seq<string>, b: seq<string>)
    requires NoQuote(a) && NoQuote(b)
    requires WhereClause(a) == WhereClause(b)
    ensures a == b
  {
    var pre := "(" + INDEX_COLUMN + " NOT IN (";
    if a != [] && b != [] {
      var wa := WhereClause(a);
      assert wa == pre + QuotedList(a) + "))";
      assert WhereClause(b) == pre + QuotedList(b) + "))";
      assert QuotedList(a) == wa[|pre|..|wa| - 2];
      assert QuotedList(b) == wa[|pre|..|wa| - 2];
      QuotedListInjective(a, b);
    }
  }

  /** Ids are not escaped: an id holding a quote makes the clause equal to the
      clause of two other ids. */
  lemma WhereDoesNotEscape()
    ensures WhereClause(["a', 'b"]) == WhereClause(["a", "b"])
  {
  }

  /** The set of already-processed ids, and the exclusion clause built from it. */
  class IndexTrackProcessed {
    var used: seq<string>

    constructor ()
      ensures used == []
    {
      used := [];
    }

    /** The identity column, `column()`. */
    static function Column(): string
    {
      INDEX_COLUMN
    }

    method Add(ind: string)
      modifies this
      ensures used == old(used) + [ind]
    {
      used := used + [ind];
    }

    function Where(): (w: string)
      reads this
      ensures w == WhereClause(used)
    {
      if |used| == 0 then "(true)" else "(" + Column() + " NOT IN (" + QuotedList(used) + "))"
    }
  }

  /** The connector, without its database connection. */
  class Connector {
    const indexTrack: IndexTrackProcessed

    constructor ()
      ensures fresh(indexTrack) && indexTrack.used == []
    {
      indexTrack := new IndexTrackProcessed();
    }

    function GetIndexColumnName(): (c: string)
      ensures c == "rutmk_uid" && c == IndexTrackProcessed.Column()
    {
      IndexTrackProcessed.Column()
    }

    method MarkLastIndex(lastId: string)
      modifies indexTrack
      ensures indexTrack.used == old(indexTrack.used) + [lastId]
    {
      indexTrack.Add(lastId);
    }
  }

  /** `get_kinds_for_object_parent` on the rows its query returned (the
      first column of each): their text, in row order. */
  function KindsFromRows(rows: seq<Value>): (kinds: seq<string>)
    ensures |kinds| == |rows|
    ensures forall i :: 0 <= i < |rows| ==> kinds[i] == PyStr(rows[i])
  {
    if rows == [] then [] else [PyStr(rows[0])] + KindsFromRows(rows[1..])
  }

  /** A kind reported as text matches "150002" exactly when the row held that
      text or that integer. */
  lemma KindMatches(v: Value)
    ensures PyStr(v) == "150002" <==> v == Str("150002") || v == Int(150002)
  {
    match v
    case Int(i) =>
      if i < 0 {
        assert PyStr(v)[0] == '-';
      } else {
        IntTextMatches(i);
      }
    case Bool(b) =>
      assert PyStr(v)[0] != '1';
    case Null =>
      assert PyStr(v)[0] != '1';
    case Str(_) =>
  }

  lemma IntTextMatches(n: nat)
    ensures NatToDecimal(n) == "150002" <==> n == 150002
  {
    if NatToDecimal(n) == "150002" {
      DecimalRoundTrip(n);
      DecimalOf150002();
    }
    if n == 150002 {
      DecimalText150002();
    }
  }

  lemma DecimalText150002()
    ensures NatToDecimal(150002) == "150002"
  {
    assert NatToDecimal(1) == "1";
    assert NatToDecimal(15) == "15";
    assert NatToDecimal(150) == "150";
    assert NatToDecimal(1500) == "1500";
    assert NatToDecimal(15000) == "15000";
  }

  lemma DecimalOf150002()
    ensures DecimalValue("150002") == 150002
  {
    assert "150002"[..5] == "15000" && "15000"[..4] == "1500";
    assert "1500"[..3] == "150" && "150"[..2] == "15" && "15"[..1] == "1";
    assert DecimalValue("1") == 1;
    assert DecimalValue("15") == 15;
    assert DecimalValue("150") == 150;
    assert DecimalValue("1500") == 1500;
    assert DecimalValue("15000") == 15000;
  }
}
