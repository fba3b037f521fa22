/**
 * `ToSlackTable` (`pkg/util/slack.go`): a table given as rows of cells becomes
 * one section block whose fields are the cells, row after row, as plain text.
 */
module SlackTable {
  import opened Wrappers
  import opened SlackApi

  /** A cell as a plain-text object with emoji rendering on. */
  function PlainText(s: string): TextObject {
    TextObject(PlainTextType, s, true, false)
  }

  /** The cells of all rows, in row-major order. */
  function Flatten(rows: seq<seq<string>>): seq<TextObject> {
    if rows == [] then []
    else
      var last := rows[|rows| - 1];
      Flatten(rows[..|rows| - 1]) + seq(|last|, j requires 0 <= j < |last| => PlainText(last[j]))
  }

  /** The number of cells of the table. */
  function Cells(rows: seq<seq<string>>): nat {
    if rows == [] then 0 else Cells(rows[..|rows| - 1]) + |rows[|rows| - 1]|
  }

  /** The message carries one section of fields and nothing else. */
  function ToSlackTable(values: seq<seq<string>>): (m: Msg)
    ensures m.blocks == [Section(None, Flatten(values))]
    ensures m.text == "" && m.attachments.None? && m.reactions == []
  {
    Msg("", "", "", "", "", [Section(None, Flatten(values))], None, [])
  }

  /** There is one field per cell. */
  lemma {:induction false} FlattenLength(rows: seq<seq<string>>)
    ensures |Flatten(rows)| == Cells(rows)
  {
    if rows != [] {
      FlattenLength(rows[..|rows| - 1]);
    }
  }

  /** Cell `j` of row `i` is field number `Cells(rows[..i]) + j`, as plain text. */
  lemma {:induction false} FlattenRowMajor(rows: seq<seq<string>>, i: int, j: int)
    requires 0 <= i < |rows| && 0 <= j < |rows[i]|
    ensures Cells(rows[..i]) + j < |Flatten(rows)|
    ensures Flatten(rows)[Cells(rows[..i]) + j] == PlainText(rows[i][j])
  {
    var init := rows[..|rows| - 1];
    FlattenLength(init);
    FlattenLength(rows);
    if i == |rows| - 1 {
      assert rows[..i] == init;
    } else {
      assert init[..i] == rows[..i];
      assert init[i] == rows[i];
      FlattenRowMajor(init, i, j);
    }
  }

  /** Every field is plain text with emoji rendering on, and every field is some cell. */
  lemma {:induction false} FlattenFields(rows: seq<seq<string>>, k: int)
    requires 0 <= k < |Flatten(rows)|
    ensures Flatten(rows)[k].kind == PlainTextType && Flatten(rows)[k].emoji && !Flatten(rows)[k].verbatim
    ensures exists i, j :: 0 <= i < |rows| && 0 <= j < |rows[i]| && Flatten(rows)[k].text == rows[i][j]
  {
    var init := rows[..|rows| - 1];
    var last := rows[|rows| - 1];
    if k < |Flatten(init)| {
      FlattenFields(init, k);
      var i, j :| 0 <= i < |init| && 0 <= j < |init[i]| && Flatten(init)[k].text == init[i][j];
      assert rows[i] == init[i];
    } else {
      var j := k - |Flatten(init)|;
      assert Flatten(rows)[k].text == rows[|rows| - 1][j];
    }
  }
}
