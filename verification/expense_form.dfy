/** The expense form's submit step: the saved expense keeps the edited
    expense's id, parses the comma-separated tags field, and belongs to user
    "1". When an expense is opened for editing, its tags are joined with
    ", " into the field. */
module ExpenseForm {
  import opened Common
  import opened Types
  import opened Text

  /** The form fields, with the amount and the date already parsed. */
  datatype FormData = FormData(
    title: string,
    amount: int,
    category: Category,
    date: Date,
    description: string,
    tags: string)

  /** The user id every saved expense gets. */
  const CurrentUserId: Id := "1"

  /** A tag as parsing produces it: non-empty, trimmed, without a comma. */
  predicate WellFormedTag(t: string)
  {
    t != [] && Trimmed(t) && ',' !in t
  }

  /** `.map(tag => tag.trim()).filter(Boolean)`. */
  function Clean(ps: seq<string>): (r: seq<string>)
    requires forall i :: 0 <= i < |ps| ==> ',' !in ps[i]
    ensures |r| <= |ps|
    ensures forall i :: 0 <= i < |r| ==> WellFormedTag(r[i])
  {
    if ps == [] then []
    else
      var t := Trim(ps[0]);
      TrimKeepsOut(ps[0], ',');
      if t == [] then Clean(ps[1..]) else [t] + Clean(ps[1..])
  }

  /** The tags field parsed: the comma-separated pieces, trimmed, empty ones dropped. */
  function ParseTags(s: string): (r: seq<string>)
    ensures forall i :: 0 <= i < |r| ==> WellFormedTag(r[i])
  {
    Clean(Split(s, ','))
  }

  /** The tags field of a form opened on `editing`: `tags.join(', ') || ''`.
      Parsing it back gives the expense's tags when they are well formed. */
  function InitialTags(editing: Option<Expense>): (r: string)
    ensures editing.None? ==> r == ""
    ensures editing.Some? && (forall i :: 0 <= i < |editing.value.tags| ==> WellFormedTag(editing.value.tags[i])) ==>
      ParseTags(r) == editing.value.tags
  {
    match editing
    case Some(e) =>
      assert (forall i :: 0 <= i < |e.tags| ==> WellFormedTag(e.tags[i])) ==> ParseTags(Join(e.tags, ", ")) == e.tags by {
        if forall i :: 0 <= i < |e.tags| ==> WellFormedTag(e.tags[i]) {
          TagsRoundTrip(e.tags);
        }
      }
      Join(e.tags, ", ")
    case None => ""
  }

  /** The expense `handleSubmit` saves. `freshId` stands for `generateId()`. */
  function BuildExpense(form: FormData, editing: Option<Expense>, freshId: Id): (r: Expense)
    ensures editing.Some? && editing.value.id != "" ==> r.id == editing.value.id
    ensures !(editing.Some? && editing.value.id != "") ==> r.id == freshId
    ensures r.userId == CurrentUserId
    ensures r.tags == ParseTags(form.tags)
    ensures forall i :: 0 <= i < |r.tags| ==> WellFormedTag(r.tags[i])
    ensures r.title == form.title && r.amount == form.amount && r.category == form.category
    ensures r.date == form.date && r.description == Some(form.description)
    ensures r.receipt.None? && r.groupId.None? && r.splitType.None? && r.participants.None?
  {
    Expense(
      id := if editing.Some? && editing.value.id != "" then editing.value.id else freshId,
      title := form.title,
      amount := form.amount,
      category := form.category,
      date := form.date,
      description := Some(form.description),
      tags := ParseTags(form.tags),
      receipt := None,
      userId := CurrentUserId,
      groupId := None,
      splitType := None,
      participants := None)
  }

  // ----- Properties of tag parsing -----

  lemma {:induction false} CleanAppend(a: seq<string>, b: seq<string>)
    requires forall i :: 0 <= i < |a| ==> ',' !in a[i]
    requires forall i :: 0 <= i < |b| ==> ',' !in b[i]
    ensures Clean(a + b) == Clean(a) + Clean(b)
  {
    if a == [] {
      assert a + b == b;
    } else {
      assert (a + b)[0] == a[0] && (a + b)[1..] == a[1..] + b;
      CleanAppend(a[1..], b);
    }
  }

  /** Tags keep the order of the input: the tags of two comma-joined fields
      are the tags of the first followed by the tags of the second. */
  lemma ParseTagsConcat(a: string, b: string)
    ensures ParseTags(a + [','] + b) == ParseTags(a) + ParseTags(b)
  {
    SplitConcat(a, ',', b);
    CleanAppend(Split(a, ','), Split(b, ','));
  }

  /** A piece without a comma parses to its trim, or to no tag when only
      white space is left. */
  lemma ParseTagsPiece(s: string)
    requires ',' !in s
    ensures ParseTags(s) == (if Trim(s) == [] then [] else [Trim(s)])
  {
    SplitNoSeparator(s, ',');
    assert [s][1..] == [];
  }

  /** A leading space changes no tag. */
  lemma ParseTagsLeadingSpace(s: string)
    ensures ParseTags(" " + s) == ParseTags(s)
  {
    var ps := Split(s, ',');
    var qs := Split(" " + s, ',');
    assert (" " + s)[1..] == s;
    assert qs == [" " + ps[0]] + ps[1..];
    TrimLeadingSpace(ps[0]);
    assert ps == [ps[0]] + ps[1..];
    assert Clean(qs) == Clean([" " + ps[0]]) + Clean(ps[1..]) by {
      CleanAppend([" " + ps[0]], ps[1..]);
    }
    assert Clean(ps) == Clean([ps[0]]) + Clean(ps[1..]) by {
      CleanAppend([ps[0]], ps[1..]);
    }
  }

  /** An empty field has no tags. */
  lemma ParseTagsEmpty()
    ensures ParseTags("") == []
  {
    assert Split("", ',') == [""];
    assert TrimStart("") == "";
    assert Trim("") == "";
  }

  /** A single well-formed tag parses to itself. */
  lemma ParseSingleTag(t: string)
    requires WellFormedTag(t)
    ensures ParseTags(t) == [t]
  {
    SplitNoSeparator(t, ',');
    TrimTrimmed(t);
  }

  /** One step of the round trip: the first tag, then the rest. */
  lemma RoundTripStep(ts: seq<string>)
    requires |ts| >= 2 && WellFormedTag(ts[0])
    requires ParseTags(Join(ts[1..], ", ")) == ts[1..]
    ensures ParseTags(Join(ts, ", ")) == ts
  {
    var rest := Join(ts[1..], ", ");
    JoinCommaSpace(ts);
    ParseTagsConcat(ts[0], " " + rest);
    ParseSingleTag(ts[0]);
    ParseTagsLeadingSpace(rest);
    assert ParseTags(Join(ts, ", ")) == [ts[0]] + ts[1..];
    assert [ts[0]] + ts[1..] == ts;
  }

  /** Opening an expense for editing and saving it gives back its tags:
      joining well-formed tags with ", " and parsing the result is the
      identity. */
  lemma {:induction false} TagsRoundTrip(ts: seq<string>)
    requires forall i :: 0 <= i < |ts| ==> WellFormedTag(ts[i])
    ensures ParseTags(Join(ts, ", ")) == ts
  {
    if |ts| == 0 {
      ParseTagsEmpty();
    } else if |ts| == 1 {
      ParseSingleTag(ts[0]);
    } else {
      TagsRoundTrip(ts[1..]);
      RoundTripStep(ts);
    }
  }

  /** Saving an expense opened for editing, with its tags field untouched,
      keeps its id and its tags. */
  lemma EditKeepsIdAndTags(e: Expense, form: FormData, freshId: Id)
    requires e.id != ""
    requires form.tags == InitialTags(Some(e))
    requires forall i :: 0 <= i < |e.tags| ==> WellFormedTag(e.tags[i])
    ensures BuildExpense(form, Some(e), freshId).id == e.id
    ensures BuildExpense(form, Some(e), freshId).tags == e.tags
  {
    TagsRoundTrip(e.tags);
  }
}
