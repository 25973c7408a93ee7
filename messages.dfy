/** The texts the store builds: the selection label, the clipboard text, the
    delete confirmation and the notifications. */
module Messages {
  import opened Wrappers
  import opened Text
  import opened Items

  /** The two notification styles of `showNotification`. */
  datatype NoticeKind = SuccessNotice | ErrorNotice

  /** A notification as shown to the user (the DOM element and its timers are
      not modelled). */
  datatype Notice = Notice(message: string, kind: NoticeKind)

  /** The `selectionText` getter: "<selected> of <total> selected". */
  function SelectionLabel(selected: nat, total: nat): string
  {
    Decimal(selected) + " of " + Decimal(total) + " selected"
  }

  /** A digit string followed by a space: the space falls right after the digits. */
  lemma DigitsThenSpace(d1: string, r1: string, d2: string, r2: string)
    requires forall i :: 0 <= i < |d1| ==> IsDigit(d1[i])
    requires forall i :: 0 <= i < |d2| ==> IsDigit(d2[i])
    requires |r1| > 0 && r1[0] == ' ' && |r2| > 0 && r2[0] == ' '
    requires d1 + r1 == d2 + r2
    ensures d1 == d2 && r1 == r2
  {
    var s := d1 + r1;
    assert forall k :: 0 <= k < |d1| ==> IsDigit(s[k]);
    assert forall k :: 0 <= k < |d2| ==> IsDigit((d2 + r2)[k]);
    assert !IsDigit(s[|d1|]) && !IsDigit((d2 + r2)[|d2|]);
    assert |d1| == |d2|;
    assert d1 == (d1 + r1)[..|d1|];
    assert d2 == (d2 + r2)[..|d2|];
    assert r1 == (d1 + r1)[|d1|..];
    assert r2 == (d2 + r2)[|d2|..];
  }

  /** Equal strings with the same prefix have equal remainders. */
  lemma PrefixCancel(p: string, x: string, y: string)
    requires p + x == p + y
    ensures x == y
  {
    assert x == (p + x)[|p|..];
    assert y == (p + y)[|p|..];
  }

  /** The label is a numeral followed by a remainder that starts with a space. */
  lemma LabelParts(a: nat, b: nat)
    ensures SelectionLabel(a, b) == Decimal(a) + (" of " + (Decimal(b) + " selected"))
    ensures (" of " + (Decimal(b) + " selected"))[0] == ' '
  {
  }

  /** The label determines both counts. */
  lemma SelectionLabelInjective(a: nat, b: nat, c: nat, d: nat)
    requires SelectionLabel(a, b) == SelectionLabel(c, d)
    ensures a == c && b == d
  {
    var xb := Decimal(b) + " selected";
    var xd := Decimal(d) + " selected";
    LabelParts(a, b);
    LabelParts(c, d);
    DigitsThenSpace(Decimal(a), " of " + xb, Decimal(c), " of " + xd);
    DecimalInjective(a, c);
    PrefixCancel(" of ", xb, xd);
    DigitsThenSpace(Decimal(b), " selected", Decimal(d), " selected");
    DecimalInjective(b, d);
  }

  /** The clipboard text of one item: "key: value". */
  function CopyLine(item: StorageItem): string
  {
    item.key + ": " + item.value
  }

  /** The position of the first `c` in `s`, or `|s|` when there is none. */
  function IndexOf(s: string, c: char): (i: nat)
    ensures i <= |s|
    ensures forall j :: 0 <= j < i ==> s[j] != c
    ensures i < |s| ==> s[i] == c
  {
    if s == [] then 0 else if s[0] == c then 0 else 1 + IndexOf(s[1..], c)
  }

  /** Reads the key back: the text before the first colon. */
  function LineKey(line: string): string
  {
    line[..IndexOf(line, ':')]
  }

  /** Reads the value back: everything after the first ": ". */
  function LineValue(line: string): string
  {
    var i := IndexOf(line, ':');
    if i + 2 <= |line| then line[i + 2..] else ""
  }

  /** A key without a colon and its value can be read back from the copied line. */
  lemma CopyLineRoundTrip(item: StorageItem)
    requires forall i :: 0 <= i < |item.key| ==> item.key[i] != ':'
    ensures LineKey(CopyLine(item)) == item.key
    ensures LineValue(CopyLine(item)) == item.value
  {
    var line := CopyLine(item);
    var n := |item.key|;
    assert line[n] == ':';
    assert forall j :: 0 <= j < n ==> line[j] == item.key[j];
    assert IndexOf(line, ':') == n;
    assert line[..n] == item.key;
    assert line[n + 2..] == item.value;
  }

  /** One line per item. */
  function CopyLines(items: seq<StorageItem>): (lines: seq<string>)
    ensures |lines| == |items|
    ensures forall k :: 0 <= k < |items| ==> lines[k] == CopyLine(items[k])
  {
    if items == [] then [] else [CopyLine(items[0])] + CopyLines(items[1..])
  }

  /** The entries all defined, or `None` if any of them is `undefined`. */
  function AllDefined(entries: seq<Option<StorageItem>>): (r: Option<seq<StorageItem>>)
    ensures r.Some? <==> forall k :: 0 <= k < |entries| ==> entries[k].Some?
    ensures r.Some? ==> |r.value| == |entries| && forall k :: 0 <= k < |entries| ==> entries[k] == Some(r.value[k])
  {
    if entries == [] then Some([])
    else if entries[0].None? then None
    else
      match AllDefined(entries[1..])
      case None => None
      case Some(rest) => Some([entries[0].value] + rest)
  }

  /** The clipboard text of several items, joined by newlines. Reading a field
      of an `undefined` entry throws before anything is copied. */
  function CopyItemsText(entries: seq<Option<StorageItem>>): (r: Result<string, Failure>)
    ensures r.Err? <==> exists k :: 0 <= k < |entries| && entries[k].None?
    ensures r.Err? ==> r.error == ItemUndefined
  {
    match AllDefined(entries)
    case Some(items) => Ok(JoinLines(CopyLines(items)))
    case None => Err(ItemUndefined)
  }

  /** A copied line holds no newline when its key and value hold none. */
  lemma CopyLineNoNewline(item: StorageItem)
    requires HasNoNewline(item.key) && HasNoNewline(item.value)
    ensures HasNoNewline(CopyLine(item))
  {
    var line := CopyLine(item);
    forall i | 0 <= i < |line| ensures line[i] != '\n' {
      if i < |item.key| {
        assert line[i] == item.key[i];
      } else if i >= |item.key| + 2 {
        assert line[i] == item.value[i - |item.key| - 2];
      }
    }
  }

  /** When no key or value holds a newline, the copied text splits back into one
      "key: value" line per entry, in order. */
  lemma CopyItemsTextSplits(entries: seq<Option<StorageItem>>)
    requires |entries| > 0
    requires forall k :: 0 <= k < |entries| ==>
      entries[k].Some? && HasNoNewline(entries[k].value.key) && HasNoNewline(entries[k].value.value)
    ensures CopyItemsText(entries).Ok?
    ensures var lines := SplitLines(CopyItemsText(entries).value);
      |lines| == |entries| && forall k :: 0 <= k < |entries| ==> lines[k] == CopyLine(entries[k].value)
  {
    var items := AllDefined(entries).value;
    var lines := CopyLines(items);
    forall k | 0 <= k < |lines| ensures HasNoNewline(lines[k]) {
      assert entries[k] == Some(items[k]);
      CopyLineNoNewline(items[k]);
    }
    SplitJoinLines(lines);
  }

  /** The `confirm` prompt of a delete. With exactly one entry its key is read,
      which throws when the entry is `undefined`. */
  function ConfirmMessage(items: seq<Option<StorageItem>>): (r: Result<string, Failure>)
    ensures r.Err? <==> |items| == 1 && items[0].None?
    ensures r.Err? ==> r.error == ItemUndefined
  {
    if |items| == 1 then
      if items[0].Some? then Ok("Delete \"" + items[0].value.key + "\"?") else Err(ItemUndefined)
    else Ok("Delete " + Decimal(|items|) + " items?")
  }

  /** A message made of a fixed prefix, a count and a suffix that starts with a
      space names its count unambiguously. */
  lemma PrefixedCountInjective(p: string, m: nat, n: nat, suffix: string)
    requires |suffix| > 0 && suffix[0] == ' '
    requires p + Decimal(m) + suffix == p + Decimal(n) + suffix
    ensures m == n
  {
    assert p + Decimal(m) + suffix == p + (Decimal(m) + suffix);
    assert p + Decimal(n) + suffix == p + (Decimal(n) + suffix);
    PrefixCancel(p, Decimal(m) + suffix, Decimal(n) + suffix);
    DigitsThenSpace(Decimal(m), suffix, Decimal(n), suffix);
    DecimalInjective(m, n);
  }

  /** The prompt for one defined entry quotes its key, which reads back as the
      text between `Delete "` and `"?`. */
  lemma ConfirmKeyReadBack(item: StorageItem)
    ensures ConfirmMessage([Some(item)]).Ok?
    ensures var m := ConfirmMessage([Some(item)]).value;
      |m| == |item.key| + 10 && m[..8] == "Delete \"" && m[8..|m| - 2] == item.key && m[|m| - 2..] == "\"?"
  {
    var m := ConfirmMessage([Some(item)]).value;
    assert m == "Delete \"" + item.key + "\"?";
  }

  /** For any other number of entries the prompt names the count, and equal
      prompts mean equal counts. */
  lemma ConfirmCountInjective(a: seq<Option<StorageItem>>, b: seq<Option<StorageItem>>)
    requires |a| != 1 && |b| != 1
    requires ConfirmMessage(a) == ConfirmMessage(b)
    ensures |a| == |b|
  {
    PrefixedCountInjective("Delete ", |a|, |b|, " items?");
  }

  /** The one-entry prompt and the count prompt never coincide: the character
      after "Delete " is a quote in the first and a digit in the second. */
  lemma ConfirmFormsDiffer(item: StorageItem, b: seq<Option<StorageItem>>)
    requires |b| != 1
    ensures ConfirmMessage([Some(item)]) != ConfirmMessage(b)
  {
    assert ConfirmMessage([Some(item)]).value[7] == '"';
    assert ConfirmMessage(b).value[7] == Decimal(|b|)[0];
  }

  const CopiedMessage := "Copied to clipboard"
  const UpdatedMessage := "Item updated"
  const UpdateFailedMessage := "Failed to update item"

  function CopiedItemsMessage(n: nat): string
  {
    "Copied " + Decimal(n) + " items to clipboard"
  }

  function ExportedMessage(n: nat): string
  {
    "Exported " + Decimal(n) + " items"
  }

  function DeletedMessage(n: nat): string
  {
    "Deleted " + Decimal(n) + " items"
  }

  /** The count notifications name their count: equal messages mean equal counts. */
  lemma CountMessagesInjective(m: nat, n: nat)
    ensures CopiedItemsMessage(m) == CopiedItemsMessage(n) ==> m == n
    ensures ExportedMessage(m) == ExportedMessage(n) ==> m == n
    ensures DeletedMessage(m) == DeletedMessage(n) ==> m == n
  {
    if CopiedItemsMessage(m) == CopiedItemsMessage(n) {
      PrefixedCountInjective("Copied ", m, n, " items to clipboard");
    }
    if ExportedMessage(m) == ExportedMessage(n) {
      PrefixedCountInjective("Exported ", m, n, " items");
    }
    if DeletedMessage(m) == DeletedMessage(n) {
      PrefixedCountInjective("Deleted ", m, n, " items");
    }
  }

  /** What a copy to the clipboard produces: the text written, and the
      notification shown once the write succeeded (a failed write is only logged). */
  datatype ClipboardCopy = ClipboardCopy(text: string, notice: Option<Notice>)

  /** `copyItem`: the item's "key: value" line goes to the clipboard, whose
      answer decides whether "Copied to clipboard" is shown. */
  function CopyItem(item: StorageItem, clipboard: Result<(), string>): (r: ClipboardCopy)
    ensures (forall i :: 0 <= i < |item.key| ==> item.key[i] != ':') ==>
      LineKey(r.text) == item.key && LineValue(r.text) == item.value
    ensures r.notice.Some? <==> clipboard.Ok?
    ensures r.notice.Some? ==> r.notice.value == Notice(CopiedMessage, SuccessNotice)
  {
    assert (forall i :: 0 <= i < |item.key| ==> item.key[i] != ':') ==>
      LineKey(CopyLine(item)) == item.key && LineValue(CopyLine(item)) == item.value by {
      if forall i :: 0 <= i < |item.key| ==> item.key[i] != ':' {
        CopyLineRoundTrip(item);
      }
    }
    ClipboardCopy(CopyLine(item), if clipboard.Ok? then Some(Notice(CopiedMessage, SuccessNotice)) else None)
  }

  /** The notification of the blocking placeholder: "item" or "items". */
  function BlockedMessage(count: nat): string
  {
    "Blocked " + Decimal(count) + " item" + (if count > 1 then "s" else "")
  }

  /** The blocking notification is plural exactly when more than one item was
      chosen, and always names the count. */
  lemma BlockedMessagePlural(count: nat)
    ensures var m := BlockedMessage(count);
      (m[|m| - 1] == 's' <==> count > 1) &&
      m[8..8 + |Decimal(count)|] == Decimal(count)
  {
    var m := BlockedMessage(count);
    var d := Decimal(count);
    if count <= 1 {
      assert m == "Blocked " + d + " item";
      assert m[|m| - 1] == 'm';
    }
    assert m == "Blocked " + (d + " item" + (if count > 1 then "s" else ""));
  }
}
