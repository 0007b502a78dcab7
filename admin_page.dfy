/** src/pages/Admin.jsx: the React customer admin page. Requests are
    returned to the caller and their outcomes passed in; the debounced reload
    on a query change is left to the caller. */
module AdminPage {
  import opened Js
  import opened Records
  import opened Fetch

  /** The new-customer form's four inputs. */
  datatype CustomerForm = CustomerForm(name: string, phone: string, email: string, comment: string)

  const EmptyForm := CustomerForm("", "", "", "")

  const LoadFailure := "Failed to load customers"

  /** `JSON.stringify(form)` as the server parses it. */
  function FormPayload(f: CustomerForm): Payload {
    map["name" := f.name, "phone" := f.phone, "email" := f.email, "comment" := f.comment]
  }

  /** A form that passes the blank-name guard passes the server's name check. */
  lemma GuardedFormPassesNameCheck(f: CustomerForm)
    requires Trim(f.name) != ""
    ensures Truthy(Get(FormPayload(f), "name"))
  {
    TrimEmptyIffAllSpace(f.name);
  }

  /** The `url` memo. */
  function CustomersUrl(q: string): (u: string)
    ensures Trim(q) == "" ==> u == CustomersPath
    ensures Trim(q) != "" ==> u == QueryPrefix + Trim(q)
  {
    ListUrl(Trim(q))
  }

  /** A record's defined fields among name, phone, email and comment, as
      `JSON.stringify` writes them (an `undefined` field is omitted). */
  function StoredFields(c: Customer): (p: Payload)
    ensures Get(p, "name") == c.name && Get(p, "phone") == c.phone
    ensures Get(p, "email") == c.email && Get(p, "comment") == c.comment
    ensures p.Keys <= {"name", "phone", "email", "comment"}
  {
    var p0: Payload := map[];
    var p1 := if c.name.Some? then p0["name" := c.name.value] else p0;
    var p2 := if c.phone.Some? then p1["phone" := c.phone.value] else p1;
    var p3 := if c.email.Some? then p2["email" := c.email.value] else p2;
    if c.comment.Some? then p3["comment" := c.comment.value] else p3
  }

  /** `{ name, phone, email, comment, ...patch }` of the existing record. */
  function UpdatePayload(c: Customer, patch: Payload): (p: Payload)
    ensures forall k :: k in patch ==> k in p && p[k] == patch[k]
    ensures forall k :: k !in patch ==> Get(p, k) == Get(StoredFields(c), k)
  {
    StoredFields(c) + patch
  }

  /** Saving an edited comment on blur sends `{ comment }` as the patch: with
      the full-object update the server applies, the record keeps its other
      fields and only its comment changes. */
  lemma CommentPatchChangesOnlyComment(c: Customer, v: string, now: nat)
    ensures Replace(c, UpdatePayload(c, map["comment" := v]), now) == c.(comment := Some(v), updatedAt := now)
  {
    var p := UpdatePayload(c, map["comment" := v]);
    assert Get(p, "name") == c.name && Get(p, "phone") == c.phone && Get(p, "email") == c.email;
    assert Get(p, "comment") == Some(v);
  }

  /** `prev.map((c) => (c._id === id ? { ...c, comment: value } : c))` */
  function WithComment(cs: seq<Customer>, id: Id, v: string): (r: seq<Customer>)
    ensures |r| == |cs|
    ensures forall i :: 0 <= i < |cs| && cs[i].id == id ==> r[i] == cs[i].(comment := Some(v))
    ensures forall i :: 0 <= i < |cs| && cs[i].id != id ==> r[i] == cs[i]
  {
    if cs == [] then []
    else
      var head := if cs[0].id == id then cs[0].(comment := Some(v)) else cs[0];
      var rest := WithComment(cs[1..], id, v);
      assert forall i :: 0 < i < |cs| ==> cs[i] == cs[1..][i - 1];
      [head] + rest
  }

  /** The comment edit touches only the comment: ids, order and every other
      field of every row are as before. */
  lemma CommentEditKeepsRows(cs: seq<Customer>, id: Id, v: string)
    ensures var r := WithComment(cs, id, v);
      forall i :: 0 <= i < |cs| ==> r[i].(comment := cs[i].comment) == cs[i]
  {
  }

  /** The list `load` keeps after a response: the array returned, an empty
      list when the body is not an array, the previous list on failure. */
  function LoadedCustomers(prev: seq<Customer>, res: Fetched<Option<seq<Customer>>>): (r: seq<Customer>)
    ensures res.Answered? && res.ok ==> r == (if res.json.Some? then res.json.value else [])
    ensures !(res.Answered? && res.ok) ==> r == prev
  {
    match Checked(res, LoadFailure)
    case Resolved(data) => if data.Some? then data.value else []
    case Rejected(_) => prev
  }

  /** The error `load` leaves: none on success, otherwise the thrown message
      or `'Error'` when it is empty. */
  function LoadError(res: Fetched<Option<seq<Customer>>>): (e: string)
    ensures res.Answered? && res.ok ==> e == ""
    ensures res.Answered? && !res.ok ==> e == LoadFailure
    ensures res.Threw? ==> e == OrElse(Some(res.message), "Error")
  {
    match Checked(res, LoadFailure)
    case Resolved(_) => ""
    case Rejected(m) => OrElse(Some(m), "Error")
  }

  class Page {
    var q: string
    var loading: bool
    var error: string
    var customers: seq<Customer>
    var form: CustomerForm

    constructor ()
      ensures q == "" && loading && error == "" && customers == [] && form == EmptyForm
    {
      q, loading, error, customers, form := "", true, "", [], EmptyForm;
    }

    function Url(): string
      reads this
    {
      CustomersUrl(q)
    }

    /** The search input's `onChange`. */
    method Search(v: string)
      modifies this
      ensures q == v
      ensures loading == old(loading) && error == old(error)
      ensures customers == old(customers) && form == old(form)
    {
      q := v;
    }

    /** `load()` fetching `Url()`: `loading` and `error` are reset first, the
        outcome then sets the list or the error, and `loading` ends false. */
    method Load(res: Fetched<Option<seq<Customer>>>)
      modifies this
      ensures !loading
      ensures customers == LoadedCustomers(old(customers), res)
      ensures error == LoadError(res)
      ensures q == old(q) && form == old(form)
    {
      loading := true;
      error := "";
      match Checked(res, LoadFailure) {
        case Resolved(data) =>
          customers := if data.Some? then data.value else [];
        case Rejected(m) =>
          error := OrElse(Some(m), "Error");
      }
      loading := false;
    }

    /** `create`: a blank name sends nothing; otherwise the form is posted,
        and when the server accepts it the form is cleared and the list
        reloaded. A refused or failed request only raises an alert. */
    method Create(created: bool, reload: Fetched<Option<seq<Customer>>>) returns (request: Option<Payload>)
      modifies this
      ensures Trim(old(form).name) == "" ==> request.None? && unchanged(this)
      ensures Trim(old(form).name) != "" ==> request == Some(FormPayload(old(form)))
      ensures Trim(old(form).name) != "" && !created ==> unchanged(this)
      ensures Trim(old(form).name) != "" && created ==>
        && form == EmptyForm && !loading && q == old(q)
        && customers == LoadedCustomers(old(customers), reload)
        && error == LoadError(reload)
    {
      if Trim(form.name) == "" {
        return None;
      }
      request := Some(FormPayload(form));
      if created {
        form := EmptyForm;
        Load(reload);
      }
    }

    /** `update(id, patch)`: nothing is sent for an id that is not listed;
        otherwise the PUT body merges the listed record with the patch. */
    method Update(id: Id, patch: Payload) returns (request: Option<Payload>)
      ensures Find(customers, id).None? ==> request.None?
      ensures Find(customers, id).Some? ==> request == Some(UpdatePayload(Find(customers, id).value, patch))
    {
      var existing := Find(customers, id);
      if existing.None? {
        return None;
      }
      request := Some(UpdatePayload(existing.value, patch));
    }

    /** `onCommentChange(id, value)` */
    method OnCommentChange(id: Id, v: string)
      modifies this
      ensures customers == WithComment(old(customers), id, v)
      ensures q == old(q) && loading == old(loading) && error == old(error) && form == old(form)
    {
      customers := WithComment(customers, id, v);
    }
  }
}
