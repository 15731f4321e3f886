/**
 * Java's `String.split(",")` (limit 0) on a literal, one-character separator.
 *
 * The string is cut at every comma. If there is no comma at all, the result is
 * the string itself as the only item (so `"".split(",")` is `[""]`).
 * Otherwise trailing empty items are dropped: `","` gives no items and
 * `"a,,"` gives `["a"]`. Leading and inner empty items stay.
 */
module JavaSplit {

  /** Every piece between commas, including empty ones: k commas give k + 1 pieces. */
  function SplitAtCommas(s: string): (pieces: seq<string>)
    ensures |pieces| >= 1
    ensures forall i :: 0 <= i < |pieces| ==> ',' !in pieces[i]
    decreases |s|
  {
    if |s| == 0 then [""]
    else
      var rest := SplitAtCommas(s[1..]);
      if s[0] == ',' then [""] + rest
      else [[s[0]] + rest[0]] + rest[1..]
  }

  /** Glues pieces back together with a comma between neighbours. */
  function JoinWithCommas(pieces: seq<string>): (s: string)
    requires |pieces| >= 1
    decreases |pieces|
  {
    if |pieces| == 1 then pieces[0]
    else pieces[0] + "," + JoinWithCommas(pieces[1..])
  }

  /** The pieces with every empty piece at the end removed. */
  function DropTrailingEmpty(pieces: seq<string>): (r: seq<string>)
    ensures |r| <= |pieces| && r == pieces[..|r|]
    ensures |r| > 0 ==> r[|r| - 1] != ""
    ensures forall i :: |r| <= i < |pieces| ==> pieces[i] == ""
    decreases |pieces|
  {
    if |pieces| == 0 then []
    else if pieces[|pieces| - 1] == "" then DropTrailingEmpty(pieces[..|pieces| - 1])
    else pieces
  }

  /** `s.split(",")` as Java computes it. */
  function Split(s: string): (items: seq<string>)
    ensures forall i :: 0 <= i < |items| ==> ',' !in items[i]
    ensures ',' !in s ==> items == [s]
  {
    if ',' !in s then [s] else DropTrailingEmpty(SplitAtCommas(s))
  }

  /** Cutting at commas and gluing back gives the original string. */
  lemma {:induction false} JoinSplitAtCommas(s: string)
    ensures JoinWithCommas(SplitAtCommas(s)) == s
    decreases |s|
  {
    if |s| > 0 {
      var rest := SplitAtCommas(s[1..]);
      JoinSplitAtCommas(s[1..]);
      assert s == [s[0]] + s[1..];
      if s[0] == ',' {
        assert JoinWithCommas([""] + rest) == "" + "," + JoinWithCommas(rest);
      } else if |rest| == 1 {
        assert JoinWithCommas([[s[0]] + rest[0]] + rest[1..]) == [s[0]] + rest[0];
      } else {
        var p := [[s[0]] + rest[0]] + rest[1..];
        assert p[1..] == rest[1..];
        assert JoinWithCommas(rest) == rest[0] + "," + JoinWithCommas(rest[1..]);
        assert JoinWithCommas(p) == ([s[0]] + rest[0]) + "," + JoinWithCommas(rest[1..]);
      }
    }
  }

  /** A comma-free string is a single piece. */
  lemma {:induction false} SplitAtCommasNoComma(a: string)
    requires ',' !in a
    ensures SplitAtCommas(a) == [a]
    decreases |a|
  {
    if |a| > 0 {
      assert ',' !in a[1..] by {
        forall i | 0 <= i < |a[1..]| ensures a[1..][i] != ',' {
          assert a[1..][i] == a[i + 1];
        }
      }
      SplitAtCommasNoComma(a[1..]);
      assert [a[0]] + a[1..] == a;
    }
  }

  /** A comma-free prefix followed by a comma becomes the first piece. */
  lemma {:induction false} SplitAtCommasCons(a: string, b: string)
    requires ',' !in a
    ensures SplitAtCommas(a + "," + b) == [a] + SplitAtCommas(b)
    decreases |a|
  {
    var s := a + "," + b;
    if |a| == 0 {
      assert s == "," + b;
      assert s[1..] == b;
    } else {
      assert ',' !in a[1..] by {
        forall i | 0 <= i < |a[1..]| ensures a[1..][i] != ',' {
          assert a[1..][i] == a[i + 1];
        }
      }
      assert s[1..] == a[1..] + "," + b;
      SplitAtCommasCons(a[1..], b);
      assert s[0] == a[0];
      assert [a[0]] + a[1..] == a;
    }
  }

  /** Gluing comma-free pieces and cutting again gives the same pieces. */
  lemma {:induction false} SplitAtCommasJoin(pieces: seq<string>)
    requires |pieces| >= 1
    requires forall i :: 0 <= i < |pieces| ==> ',' !in pieces[i]
    ensures SplitAtCommas(JoinWithCommas(pieces)) == pieces
    decreases |pieces|
  {
    if |pieces| == 1 {
      SplitAtCommasNoComma(pieces[0]);
    } else {
      assert forall i :: 0 <= i < |pieces[1..]| ==> ',' !in pieces[1..][i] by {
        forall i | 0 <= i < |pieces[1..]| ensures ',' !in pieces[1..][i] {
          assert pieces[1..][i] == pieces[i + 1];
        }
      }
      SplitAtCommasJoin(pieces[1..]);
      SplitAtCommasCons(pieces[0], JoinWithCommas(pieces[1..]));
      assert [pieces[0]] + pieces[1..] == pieces;
    }
  }

  /**
   * With a comma in the string, the items are the comma-separated pieces up
   * to the last non-empty one, and only empty pieces follow them.
   */
  lemma SplitSpec(s: string)
    ensures ',' in s ==>
      var pieces := SplitAtCommas(s);
      && Split(s) == pieces[..|Split(s)|]
      && (|Split(s)| > 0 ==> Split(s)[|Split(s)| - 1] != "")
      && (forall i :: |Split(s)| <= i < |pieces| ==> pieces[i] == "")
  {
  }

  /** `k` empty pieces. */
  function EmptyPieces(k: nat): (r: seq<string>)
    ensures |r| == k && forall i :: 0 <= i < k ==> r[i] == ""
  {
    seq(k, _ => "")
  }

  /** Gluing the items back and adding the dropped commas gives the original string. */
  lemma SplitRestores(s: string)
    ensures |Split(s)| <= |SplitAtCommas(s)|
    ensures JoinWithCommas(Split(s) + EmptyPieces(|SplitAtCommas(s)| - |Split(s)|)) == s
  {
    if ',' !in s {
      SplitAtCommasNoComma(s);
    }
    var pieces := SplitAtCommas(s);
    var items := Split(s);
    assert items + EmptyPieces(|pieces| - |items|) == pieces;
    JoinSplitAtCommas(s);
  }

  /** A string without a comma is one item, even when empty; a lone comma gives no items. */
  lemma SplitExamplesShort()
    ensures Split("") == [""]
    ensures Split(",") == []
  {
    assert SplitAtCommas("") == [""];
    SplitAtCommasCons("", "");
    assert "" + "," + "" == ",";
  }

  /** Trailing empty items are dropped. */
  lemma SplitExamplesTrailing()
    ensures Split("a,,") == ["a"]
  {
    SplitAtCommasCons("", "");
    assert "" + "," + "" == ",";
    SplitAtCommasCons("", ",");
    assert "" + "," + "," == ",,";
    SplitAtCommasCons("a", ",");
    assert "a" + "," + "," == "a,,";
    assert SplitAtCommas("a,,") == ["a", "", ""];
    assert DropTrailingEmpty(["a", "", ""]) == ["a"] by {
      assert ["a", "", ""][..2] == ["a", ""];
      assert ["a", ""][..1] == ["a"];
    }
    assert ',' in "a,," by { assert "a,,"[1] == ','; }
  }

  /** A leading empty item is kept. */
  lemma SplitExamplesLeading()
    ensures Split(",a") == ["", "a"]
    ensures Split("ab,c") == ["ab", "c"]
  {
    SplitAtCommasNoComma("a");
    SplitAtCommasCons("", "a");
    assert "" + "," + "a" == ",a";
    SplitAtCommasNoComma("c");
    SplitAtCommasCons("ab", "c");
    assert "ab" + "," + "c" == "ab,c";
    assert ',' in "ab,c" by { assert "ab,c"[2] == ','; }
    assert ',' in ",a" by { assert ",a"[0] == ','; }
  }
}
