/**
 The inline keyboard of the mail.ru bot library
 (`vendor/github.com/mail-ru-im/bot-golang/keyboard.go`): rows of buttons
 edited in place by index. Every edit is modelled as a function from the
 keyboard before to the keyboard after together with the Go error; an edit
 that fails leaves the keyboard as it was.
 */
module BotKeyboard {
  import opened Wrappers
  import Decimal

  /** `Button`: its label, and the URL or callback data it carries. */
  datatype Button = Button(text: string, url: string, callbackData: string, style: string)

  datatype Keyboard = Keyboard(rows: seq<seq<Button>>)

  /** The keyboard after an edit, and the error the edit returned. */
  datatype Outcome = Outcome(keyboard: Keyboard, error: Status)

  /** `checkRow`: `i` addresses an existing row. */
  predicate CheckRow(k: Keyboard, i: int)
  {
    0 <= i < |k.rows|
  }

  /** `checkButton`: `button` addresses an existing button of an existing row. */
  predicate CheckButton(k: Keyboard, row: int, button: int)
  {
    CheckRow(k, row) && 0 <= button < |k.rows[row]|
  }

  /** No row is empty, the shape the API expects of an inline keyboard. */
  predicate NoEmptyRows(k: Keyboard)
  {
    forall i :: 0 <= i < |k.rows| ==> |k.rows[i]| > 0
  }

  function NoSuchRow(i: int): string
  {
    "no such row: " + Decimal.FormatInt(i)
  }

  function NoSuchButton(row: int, button: int): string
  {
    "no button at index " + Decimal.FormatInt(button) + " or row " + Decimal.FormatInt(row)
  }

  const LastButton: string := "can't delete button: at least one should remain in a row"

  /** `NewKeyboard`: a keyboard with no rows. */
  function NewKeyboard(): (k: Keyboard)
    ensures RowsCount(k) == 0
    ensures forall i :: !CheckRow(k, i)
  {
    Keyboard([])
  }

  /** `RowsCount`. */
  function RowsCount(k: Keyboard): (n: nat)
    ensures n == |k.rows|
  {
    |k.rows|
  }

  /** `RowSize`: the number of buttons in a row, or -1 when there is no such row. */
  function RowSize(k: Keyboard, row: int): (n: int)
    ensures n == -1 <==> !CheckRow(k, row)
    ensures CheckRow(k, row) ==> n == |k.rows[row]|
  {
    if CheckRow(k, row) then |k.rows[row]| else -1
  }

  /** `AddRow`: one row more, at the end; the rows before it are untouched. */
  function AddRow(k: Keyboard, row: seq<Button>): (r: Keyboard)
    ensures RowsCount(r) == RowsCount(k) + 1
    ensures r.rows[..|k.rows|] == k.rows
    ensures r.rows[|k.rows|] == row
  {
    Keyboard(k.rows + [row])
  }

  /** `AddButton`: the button goes to the end of the addressed row; no other row changes. */
  function AddButton(k: Keyboard, rowIndex: int, button: Button): (r: Outcome)
    ensures r.error.Some? <==> !CheckRow(k, rowIndex)
    ensures r.error.Some? ==> r.error.value == NoSuchRow(rowIndex) && r.keyboard == k
    ensures r.error.None? ==>
              && RowsCount(r.keyboard) == RowsCount(k)
              && RowSize(r.keyboard, rowIndex) == RowSize(k, rowIndex) + 1
              && r.keyboard.rows[rowIndex][..|k.rows[rowIndex]|] == k.rows[rowIndex]
              && r.keyboard.rows[rowIndex][|k.rows[rowIndex]|] == button
              && (forall j :: 0 <= j < |k.rows| && j != rowIndex ==> r.keyboard.rows[j] == k.rows[j])
  {
    if !CheckRow(k, rowIndex) then Outcome(k, Some(NoSuchRow(rowIndex)))
    else Outcome(Keyboard(k.rows[rowIndex := k.rows[rowIndex] + [button]]), None)
  }

  /** `DeleteRow`: one row fewer; the rows before it stay, the rows after it move up by one. */
  function DeleteRow(k: Keyboard, index: int): (r: Outcome)
    ensures r.error.Some? <==> !CheckRow(k, index)
    ensures r.error.Some? ==> r.error.value == NoSuchRow(index) && r.keyboard == k
    ensures r.error.None? ==>
              && RowsCount(r.keyboard) == RowsCount(k) - 1
              && (forall j :: 0 <= j < index ==> r.keyboard.rows[j] == k.rows[j])
              && (forall j :: index <= j < |r.keyboard.rows| ==> r.keyboard.rows[j] == k.rows[j + 1])
  {
    if !CheckRow(k, index) then Outcome(k, Some(NoSuchRow(index)))
    else Outcome(Keyboard(k.rows[..index] + k.rows[index + 1..]), None)
  }

  /**
   `DeleteButton`: an existing button of a row that holds at least two is
   removed, the buttons after it move up by one; a row is never emptied.
   */
  function DeleteButton(k: Keyboard, rowIndex: int, buttonIndex: int): (r: Outcome)
    ensures !CheckButton(k, rowIndex, buttonIndex) ==>
              r == Outcome(k, Some(NoSuchButton(rowIndex, buttonIndex)))
    ensures CheckButton(k, rowIndex, buttonIndex) && RowSize(k, rowIndex) < 2 ==>
              r == Outcome(k, Some(LastButton))
    ensures r.error.None? <==> CheckButton(k, rowIndex, buttonIndex) && RowSize(k, rowIndex) >= 2
    ensures r.error.None? ==>
              && CheckButton(k, rowIndex, buttonIndex)
              && RowsCount(r.keyboard) == RowsCount(k)
              && var before := k.rows[rowIndex];
              var after := r.keyboard.rows[rowIndex];
              && |after| == |before| - 1 >= 1
              && (forall b :: 0 <= b < buttonIndex ==> after[b] == before[b])
              && (forall b :: buttonIndex <= b < |after| ==> after[b] == before[b + 1])
              && (forall j :: 0 <= j < |k.rows| && j != rowIndex ==> r.keyboard.rows[j] == k.rows[j])
  {
    if !CheckButton(k, rowIndex, buttonIndex) then Outcome(k, Some(NoSuchButton(rowIndex, buttonIndex)))
    else if RowSize(k, rowIndex) < 2 then Outcome(k, Some(LastButton))
    else
      var row := k.rows[rowIndex];
      Outcome(Keyboard(k.rows[rowIndex := row[..buttonIndex] + row[buttonIndex + 1..]]), None)
  }

  /** `ChangeButton`: exactly the addressed button is replaced. */
  function ChangeButton(k: Keyboard, rowIndex: int, buttonIndex: int, newButton: Button): (r: Outcome)
    ensures r.error.Some? <==> !CheckButton(k, rowIndex, buttonIndex)
    ensures r.error.Some? ==> r.error.value == NoSuchButton(rowIndex, buttonIndex) && r.keyboard == k
    ensures r.error.None? ==>
              && RowsCount(r.keyboard) == RowsCount(k)
              && (forall j :: 0 <= j < |k.rows| ==> |r.keyboard.rows[j]| == |k.rows[j]|)
              && r.keyboard.rows[rowIndex][buttonIndex] == newButton
              && (forall j, b :: 0 <= j < |k.rows| && 0 <= b < |k.rows[j]| && (j, b) != (rowIndex, buttonIndex) ==>
                    r.keyboard.rows[j][b] == k.rows[j][b])
  {
    if !CheckButton(k, rowIndex, buttonIndex) then Outcome(k, Some(NoSuchButton(rowIndex, buttonIndex)))
    else Outcome(Keyboard(k.rows[rowIndex := k.rows[rowIndex][buttonIndex := newButton]]), None)
  }

  /** `SwapRows`: the first index is checked before the second; the two rows trade places. */
  function SwapRows(k: Keyboard, first: int, second: int): (r: Outcome)
    ensures !CheckRow(k, first) ==>
              r == Outcome(k, Some("no such index (first): " + Decimal.FormatInt(first)))
    ensures CheckRow(k, first) && !CheckRow(k, second) ==>
              r == Outcome(k, Some("no such index (second): " + Decimal.FormatInt(second)))
    ensures r.error.None? <==> CheckRow(k, first) && CheckRow(k, second)
    ensures r.error.None? ==>
              && RowsCount(r.keyboard) == RowsCount(k)
              && r.keyboard.rows[first] == k.rows[second]
              && r.keyboard.rows[second] == k.rows[first]
              && (forall j :: 0 <= j < |k.rows| && j != first && j != second ==> r.keyboard.rows[j] == k.rows[j])
              && multiset(r.keyboard.rows) == multiset(k.rows)
  {
    if !CheckRow(k, first) then Outcome(k, Some("no such index (first): " + Decimal.FormatInt(first)))
    else if !CheckRow(k, second) then Outcome(k, Some("no such index (second): " + Decimal.FormatInt(second)))
    else Outcome(Keyboard(k.rows[first := k.rows[second]][second := k.rows[first]]), None)
  }

  /** Swapping the same two rows twice gives back the keyboard. */
  lemma SwapTwiceRestores(k: Keyboard, first: int, second: int)
    requires CheckRow(k, first) && CheckRow(k, second)
    ensures SwapRows(SwapRows(k, first, second).keyboard, first, second) == Outcome(k, None)
  {
    var once := SwapRows(k, first, second).keyboard;
    var twice := SwapRows(once, first, second).keyboard;
    assert twice.rows == k.rows by {
      forall j | 0 <= j < |k.rows|
        ensures twice.rows[j] == k.rows[j]
      {
      }
    }
  }

  /** Swapping a row with itself changes nothing. */
  lemma SwapSelfIsNoOp(k: Keyboard, i: int)
    requires CheckRow(k, i)
    ensures SwapRows(k, i, i) == Outcome(k, None)
  {
    assert SwapRows(k, i, i).keyboard.rows == k.rows;
  }

  /** Deleting the row just added gives back the keyboard. */
  lemma DeleteAddedRow(k: Keyboard, row: seq<Button>)
    ensures DeleteRow(AddRow(k, row), RowsCount(k)) == Outcome(k, None)
  {
    var added := AddRow(k, row);
    assert added.rows[..|k.rows|] + added.rows[|k.rows| + 1..] == k.rows;
  }

  /** In a non-empty row, deleting the button just added gives back the keyboard. */
  lemma DeleteAddedButton(k: Keyboard, rowIndex: int, button: Button)
    requires CheckRow(k, rowIndex) && |k.rows[rowIndex]| > 0
    ensures DeleteButton(AddButton(k, rowIndex, button).keyboard, rowIndex, RowSize(k, rowIndex)) == Outcome(k, None)
  {
    var row := k.rows[rowIndex];
    var added := AddButton(k, rowIndex, button).keyboard;
    assert added.rows[rowIndex] == row + [button];
    assert (row + [button])[..|row|] + (row + [button])[|row| + 1..] == row;
    assert added.rows[rowIndex := row] == k.rows;
  }

  /** A button added to an empty row is its last one, and cannot be deleted again. */
  lemma LoneButtonStays(k: Keyboard, rowIndex: int, button: Button)
    requires CheckRow(k, rowIndex) && |k.rows[rowIndex]| == 0
    ensures DeleteButton(AddButton(k, rowIndex, button).keyboard, rowIndex, 0).error == Some(LastButton)
  {
  }

  /** Putting the replaced button back gives back the keyboard. */
  lemma ChangeBackRestores(k: Keyboard, rowIndex: int, buttonIndex: int, newButton: Button)
    requires CheckButton(k, rowIndex, buttonIndex)
    ensures var changed := ChangeButton(k, rowIndex, buttonIndex, newButton).keyboard;
            ChangeButton(changed, rowIndex, buttonIndex, k.rows[rowIndex][buttonIndex]) == Outcome(k, None)
  {
    var changed := ChangeButton(k, rowIndex, buttonIndex, newButton).keyboard;
    var back := ChangeButton(changed, rowIndex, buttonIndex, k.rows[rowIndex][buttonIndex]).keyboard;
    assert back.rows[rowIndex] == k.rows[rowIndex];
    assert back.rows == k.rows;
  }

  /**
   Every edit keeps a keyboard without empty rows free of them (`AddRow`
   when the added row has a button): `DeleteButton` refuses to remove the
   last button of a row.
   */
  lemma EditsKeepRowsNonEmpty(k: Keyboard, i: int, j: int, button: Button, row: seq<Button>)
    requires NoEmptyRows(k)
    ensures |row| > 0 ==> NoEmptyRows(AddRow(k, row))
    ensures NoEmptyRows(AddButton(k, i, button).keyboard)
    ensures NoEmptyRows(DeleteRow(k, i).keyboard)
    ensures NoEmptyRows(DeleteButton(k, i, j).keyboard)
    ensures NoEmptyRows(ChangeButton(k, i, j, button).keyboard)
    ensures NoEmptyRows(SwapRows(k, i, j).keyboard)
  {
  }
}
