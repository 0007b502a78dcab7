/** admin.js: the static admin page. The table is a sequence of rows, each
    cell held as the HTML text written into it; what the browser reads back
    from a cell or an input is that text decoded. */
module VanillaAdmin {
  import opened Js
  import opened Html
  import opened Records
  import opened Fetch

  const ListFailure := "Failed to list customers"
  const CreateFailure := "Failed to create customer"
  const UpdateFailure := "Failed to update customer"
  const LoadingText := "Loading..."
  const EmptyText := "No customers yet."

  datatype Row =
    | Message(text: string)
    | CustomerRow(id: Id, nameHtml: string, phoneHtml: string, emailHtml: string,
                  commentAttr: string, updatedAt: nat)

  /** The row `load` writes for one customer: the three text cells through
      `escapeHtml`, the comment input's `value` through `escapeAttr` as
      written. */
  function RowOf(c: Customer): (r: Row)
    ensures r.CustomerRow? && r.id == c.id && r.updatedAt == c.updatedAt
    ensures r.commentAttr == EscapeAttr(c.comment)
  {
    CustomerRow(c.id, EscapeHtml(c.name), EscapeHtml(c.phone), EscapeHtml(c.email),
                EscapeAttr(c.comment), c.updatedAt)
  }

  /** The same row with `escapeAttr` corrected to escape `&` (see
      `Html.EscapeAttrFixed`); only the comment attribute differs. */
  function RowOfFixed(c: Customer): (r: Row)
    ensures r.CustomerRow? && r.commentAttr == EscapeAttrFixed(c.comment)
    ensures RowOf(c).CustomerRow? && r == RowOf(c).(commentAttr := r.commentAttr)
  {
    CustomerRow(c.id, EscapeHtml(c.name), EscapeHtml(c.phone), EscapeHtml(c.email),
                EscapeAttrFixed(c.comment), c.updatedAt)
  }

  /** The three text cells read back the record's values, with a missing
      value read as the empty string; so does the comment input as written
      when the comment holds no `&`. */
  lemma RowReadsBack(c: Customer)
    ensures HtmlDecode(RowOf(c).nameHtml) == OrElse(c.name, "")
    ensures HtmlDecode(RowOf(c).phoneHtml) == OrElse(c.phone, "")
    ensures HtmlDecode(RowOf(c).emailHtml) == OrElse(c.email, "")
    ensures (forall i :: 0 <= i < |OrElse(c.comment, "")| ==> OrElse(c.comment, "")[i] != '&') ==>
      HtmlDecode(RowOf(c).commentAttr) == OrElse(c.comment, "")
  {
    DecodeEscapeText(OrElse(c.name, ""));
    DecodeEscapeText(OrElse(c.phone, ""));
    DecodeEscapeText(OrElse(c.email, ""));
    if forall i :: 0 <= i < |OrElse(c.comment, "")| ==> OrElse(c.comment, "")[i] != '&' {
      DecodeEscapeAttr(OrElse(c.comment, ""));
    }
  }

  /** With the corrected escaper every cell and the comment input read back
      the record's values. */
  lemma FixedRowReadsBack(c: Customer)
    ensures HtmlDecode(RowOfFixed(c).nameHtml) == OrElse(c.name, "")
    ensures HtmlDecode(RowOfFixed(c).phoneHtml) == OrElse(c.phone, "")
    ensures HtmlDecode(RowOfFixed(c).emailHtml) == OrElse(c.email, "")
    ensures HtmlDecode(RowOfFixed(c).commentAttr) == OrElse(c.comment, "")
  {
    RowReadsBack(c);
    DecodeEscapeAttrFixed(OrElse(c.comment, ""));
  }

  /** The `for (const c of data)` loop: one row per customer, in response
      order. */
  method BuildRows(data: seq<Customer>) returns (rows: seq<Row>)
    ensures |rows| == |data|
    ensures forall i :: 0 <= i < |data| ==> rows[i] == RowOf(data[i])
  {
    rows := [];
    for i := 0 to |data|
      invariant |rows| == i
      invariant forall j :: 0 <= j < i ==> rows[j] == RowOf(data[j])
    {
      rows := rows + [RowOf(data[i])];
    }
  }

  /** The `{ name, phone, email, comment }` body `saveComment` sends: the
      row's first three cells as text, trimmed, and the input's value as it
      is. */
  function CommentUpdate(row: Row, value: string): (p: Payload)
    requires row.CustomerRow?
    ensures p.Keys == {"name", "phone", "email", "comment"}
    ensures p["comment"] == value
    ensures p["name"] == Trim(HtmlDecode(row.nameHtml))
    ensures p["phone"] == Trim(HtmlDecode(row.phoneHtml))
    ensures p["email"] == Trim(HtmlDecode(row.emailHtml))
  {
    map["name" := Trim(HtmlDecode(row.nameHtml)), "phone" := Trim(HtmlDecode(row.phoneHtml)),
        "email" := Trim(HtmlDecode(row.emailHtml)), "comment" := value]
  }

  /** Leaving a comment input without editing it writes back the record's
      own values: the comment as stored, and name, phone and email trimmed
      (a missing one as the empty string). */
  lemma UneditedCommentSaveKeepsRecord(c: Customer, now: nat)
    ensures var row := RowOfFixed(c);
      Replace(c, CommentUpdate(row, HtmlDecode(row.commentAttr)), now)
        == c.(name := Some(Trim(OrElse(c.name, ""))), phone := Some(Trim(OrElse(c.phone, ""))),
              email := Some(Trim(OrElse(c.email, ""))), comment := Some(OrElse(c.comment, "")),
              updatedAt := now)
  {
    FixedRowReadsBack(c);
  }

  /** With `escapeAttr` as written, the same untouched blur changes a comment
      reading `&amp;` into `&`. */
  lemma AsWrittenBlurRewritesComment(c: Customer, now: nat)
    requires c.comment == Some("&amp;")
    ensures var row := RowOf(c); var value := HtmlDecode(row.commentAttr);
      value == "&" && Replace(c, CommentUpdate(row, value), now).comment != c.comment
  {
    EscapeAttrDoesNotRoundTrip();
  }

  class Table {
    var rows: seq<Row>

    /** `load(q)`, up to the awaited list call. */
    method BeginLoad()
      modifies this
      ensures rows == [Message(LoadingText)]
    {
      rows := [Message(LoadingText)];
    }

    /** The rest of `load`: an empty list shows one notice row, a list one
        row per customer, a failure one error row with the escaped message. */
    method FinishLoad(res: Settled<seq<Customer>>)
      modifies this
      ensures res.Rejected? ==> rows == [Message("Error: " + EscapeHtml(Some(res.message)))]
      ensures res.Resolved? && res.value == [] ==> rows == [Message(EmptyText)]
      ensures res.Resolved? && res.value != [] ==>
        |rows| == |res.value| && forall i :: 0 <= i < |rows| ==> rows[i] == RowOf(res.value[i])
    {
      match res {
        case Rejected(m) =>
          rows := [Message("Error: " + EscapeHtml(Some(m)))];
        case Resolved(data) =>
          if |data| == 0 {
            rows := [Message(EmptyText)];
          } else {
            rows := BuildRows(data);
          }
      }
    }
  }

  /** `wireSearch`: `t` is the handle of the pending search timer; `timers`
      the live timers and the query each will load. */
  class SearchBox {
    var value: string
    var t: Option<nat>
    var timers: map<nat, string>
    var nextHandle: nat

    ghost predicate Valid()
      reads this
    {
      && (forall h :: h in timers ==> t == Some(h) && timers[h] == Trim(value))
      && (t.Some? ==> t.value < nextHandle)
    }

    constructor ()
      ensures Valid() && value == "" && t.None? && timers == map[]
    {
      value, t, timers, nextHandle := "", None, map[], 0;
    }

    /** An `input` event: the pending timer is cleared and a new one set for
        the trimmed value. */
    method OnInput(v: string)
      requires Valid()
      modifies this
      ensures Valid()
      ensures value == v
      ensures t.Some? && timers == map[t.value := Trim(v)]
    {
      value := v;
      if t.Some? {
        timers := timers - {t.value};
      }
      t := Some(nextHandle);
      timers := timers[nextHandle := Trim(v)];
      nextHandle := nextHandle + 1;
    }

    /** A timer firing runs `load` with the query it was set for, which is
        the search box's value trimmed. */
    method Fire(h: nat) returns (q: string)
      requires Valid() && h in timers
      modifies this
      ensures Valid()
      ensures q == old(timers)[h] && q == Trim(value) && timers == map[]
      ensures value == old(value) && t == old(t) && nextHandle == old(nextHandle)
    {
      q := timers[h];
      timers := timers - {h};
    }

    /** The refresh button loads the trimmed value at once. */
    method Refresh() returns (q: string)
      ensures q == Trim(value)
    {
      q := Trim(value);
    }
  }

  /** At most one search is pending at any time. */
  lemma AtMostOnePending(timers: map<nat, string>, t: Option<nat>)
    requires forall h :: h in timers ==> t == Some(h)
    ensures |timers| <= 1
  {
    if t.Some? && t.value in timers {
      assert timers.Keys == {t.value};
    } else {
      assert timers.Keys == {};
    }
  }
}
