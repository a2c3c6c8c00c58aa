/**
 * The create/edit form: its text fields, the list of ingredient rows the
 * user edits, when the submit button is disabled, and the record it submits.
 * `uid()` is random, so fresh row ids are parameters.
 */
module RecipeFormView {
  import opened Wrappers
  import opened Text
  import opened Sequences
  import opened ClientTypes
  import opened Helpers

  /** One editable ingredient row (the client's `Ingredient`). */
  datatype Row = Row(id: string, name: string, amount: string)

  /** `Partial<Ingredient>`: the fields a row update overwrites. */
  datatype RowPatch = RowPatch(id: Option<string>, name: Option<string>, amount: Option<string>)

  datatype Field = TitleField | ImageUrlField | DescriptionField | MethodField

  /** The submitted `RecipeFormData`; an absent optional field is `undefined`. */
  datatype FormData = FormData(
    title: string,
    slug: string,
    imageUrl: Option<string>,
    description: Option<string>,
    methodText: string,
    ingredients: seq<NameAmount>)

  /**
   * The first rows: one per ingredient of the recipe being edited, named
   * after its type, each with a fresh id; a single empty row for a new recipe.
   */
  function InitialRows(initial: Option<Recipe>, uid: nat -> string): (rows: seq<Row>)
    ensures initial.None? ==> rows == [Row(uid(0), "", "")]
    ensures initial.Some? ==> |rows| == |initial.value.ingredients|
    ensures initial.Some? ==> forall i :: 0 <= i < |rows| ==>
      var ing := initial.value.ingredients[i];
      rows[i] == Row(uid(i), if ing.typ.Some? then ing.typ.value.name else "", ing.amount)
  {
    if initial.Some? then
      var shown := FormatIngredients(initial.value.ingredients);
      seq(|shown|, i requires 0 <= i < |shown| => Row(uid(i), shown[i].name, shown[i].amount))
    else
      [Row(uid(0), "", "")]
  }

  /** `prev.filter(i => i.id !== id)` */
  function RemoveRows(rows: seq<Row>, id: string): (r: seq<Row>)
    ensures forall x :: x in r <==> x in rows && x.id != id
  {
    Filter(rows, (x: Row) => x.id != id)
  }

  /** `{ ...row, ...patch }` */
  function ApplyPatch(row: Row, patch: RowPatch): Row {
    Row(patch.id.GetOr(row.id), patch.name.GetOr(row.name), patch.amount.GetOr(row.amount))
  }

  /** `prev.map(i => i.id === id ? { ...i, ...patch } : i)` */
  function PatchRows(rows: seq<Row>, id: string, patch: RowPatch): (r: seq<Row>)
    ensures |r| == |rows|
    ensures forall i :: 0 <= i < |rows| && rows[i].id != id ==> r[i] == rows[i]
    ensures forall i :: 0 <= i < |rows| && rows[i].id == id ==> r[i] == ApplyPatch(rows[i], patch)
  {
    seq(|rows|, i requires 0 <= i < |rows| => if rows[i].id == id then ApplyPatch(rows[i], patch) else rows[i])
  }

  /** `!i.name.trim() || !i.amount.trim()` */
  predicate BlankRow(row: Row) {
    Trim(row.name) == "" || Trim(row.amount) == ""
  }

  /** `ingredients.some(i => !i.name.trim() || !i.amount.trim())` */
  function AnyBlankRow(rows: seq<Row>): (b: bool)
    ensures b <==> exists i :: 0 <= i < |rows| && BlankRow(rows[i])
  {
    if rows == [] then false
    else
      SomeBlankRowSplit(rows);
      BlankRow(rows[0]) || AnyBlankRow(rows[1..])
  }

  /** Some row is blank iff the first one is or one of the others is. */
  lemma SomeBlankRowSplit(rows: seq<Row>)
    requires rows != []
    ensures (exists i :: 0 <= i < |rows| && BlankRow(rows[i]))
            <==> BlankRow(rows[0]) || exists j :: 0 <= j < |rows[1..]| && BlankRow(rows[1..][j])
  {
    if j :| 0 <= j < |rows[1..]| && BlankRow(rows[1..][j]) {
      assert rows[1..][j] == rows[j + 1];
    }
    if i :| 0 <= i < |rows| && BlankRow(rows[i]) {
      if i > 0 {
        assert rows[1..][i - 1] == rows[i];
      }
    }
  }

  /**
   * The submit button's `disabled`: the button is enabled exactly when the
   * trimmed title and method are non-empty and every row has a non-empty
   * trimmed name and amount.
   */
  function Disabled(title: string, methodText: string, rows: seq<Row>): (d: bool)
    ensures !d <==> Trim(title) != "" && Trim(methodText) != ""
                    && forall i :: 0 <= i < |rows| ==> Trim(rows[i].name) != "" && Trim(rows[i].amount) != ""
  {
    Trim(title) == "" || Trim(methodText) == "" || AnyBlankRow(rows)
  }

  /** The record `onSubmit` receives. */
  function Payload(title: string, imageUrl: string, description: string, methodText: string, rows: seq<Row>): (d: FormData)
    ensures d.title == Trim(title)
    ensures d.slug == GenerateSlug(Trim(title))
    ensures d.imageUrl.None? <==> Trim(imageUrl) == ""
    ensures d.imageUrl.Some? ==> d.imageUrl.value == Trim(imageUrl)
    ensures d.description.None? <==> Trim(description) == ""
    ensures d.description.Some? ==> d.description.value == Trim(description)
    ensures d.methodText == Trim(methodText)
    ensures |d.ingredients| == |rows|
    ensures forall i :: 0 <= i < |rows| ==> d.ingredients[i] == NameAmount(Trim(rows[i].name), Trim(rows[i].amount))
  {
    var t := Trim(title);
    FormData(
      t,
      GenerateSlug(t),
      if Trim(imageUrl) == "" then None else Some(Trim(imageUrl)),
      if Trim(description) == "" then None else Some(Trim(description)),
      Trim(methodText),
      seq(|rows|, i requires 0 <= i < |rows| => NameAmount(Trim(rows[i].name), Trim(rows[i].amount))))
  }

  class RecipeForm {
    var title: string
    var imageUrl: string
    var description: string
    var methodText: string
    var rows: seq<Row>

    /** The form's state hooks, started from the recipe being edited or empty. */
    constructor(initial: Option<Recipe>, uid: nat -> string)
      ensures initial.None? ==> title == "" && imageUrl == "" && description == "" && methodText == ""
      ensures initial.Some? ==> title == initial.value.title && methodText == initial.value.methodText
      ensures initial.Some? ==> imageUrl == initial.value.imageUrl.GetOr("") && description == initial.value.description.GetOr("")
      ensures rows == InitialRows(initial, uid)
    {
      if initial.Some? {
        title := initial.value.title;
        imageUrl := initial.value.imageUrl.GetOr("");
        description := initial.value.description.GetOr("");
        methodText := initial.value.methodText;
      } else {
        title, imageUrl, description, methodText := "", "", "", "";
      }
      rows := InitialRows(initial, uid);
    }

    /** A text input's `onChange`. */
    method SetField(f: Field, value: string)
      modifies this
      ensures f == TitleField ==> title == value
      ensures f == ImageUrlField ==> imageUrl == value
      ensures f == DescriptionField ==> description == value
      ensures f == MethodField ==> methodText == value
      ensures f != TitleField ==> title == old(title)
      ensures f != ImageUrlField ==> imageUrl == old(imageUrl)
      ensures f != DescriptionField ==> description == old(description)
      ensures f != MethodField ==> methodText == old(methodText)
      ensures rows == old(rows)
    {
      match f
      case TitleField => title := value;
      case ImageUrlField => imageUrl := value;
      case DescriptionField => description := value;
      case MethodField => methodText := value;
    }

    /** `addRow`: one empty row at the end. */
    method AddRow(newId: string)
      modifies this
      ensures rows == old(rows) + [Row(newId, "", "")]
      ensures title == old(title) && imageUrl == old(imageUrl) && description == old(description) && methodText == old(methodText)
    {
      rows := rows + [Row(newId, "", "")];
    }

    /** `removeRow(id)` */
    method RemoveRow(id: string)
      modifies this
      ensures rows == RemoveRows(old(rows), id)
      ensures title == old(title) && imageUrl == old(imageUrl) && description == old(description) && methodText == old(methodText)
    {
      rows := RemoveRows(rows, id);
    }

    /** `updateRow(id, patch)` */
    method UpdateRow(id: string, patch: RowPatch)
      modifies this
      ensures rows == PatchRows(old(rows), id, patch)
      ensures title == old(title) && imageUrl == old(imageUrl) && description == old(description) && methodText == old(methodText)
    {
      rows := PatchRows(rows, id, patch);
    }

    /** The submit button: nothing when it is disabled, the payload otherwise. */
    method Submit() returns (sent: Option<FormData>)
      ensures sent.Some? <==> !Disabled(title, methodText, rows)
      ensures sent.Some? ==> sent.value == Payload(title, imageUrl, description, methodText, rows)
    {
      if Disabled(title, methodText, rows) {
        sent := None;
      } else {
        sent := Some(Payload(title, imageUrl, description, methodText, rows));
      }
    }
  }

  // ---------------------------------------------------------------------------
  // Properties

  /** Removing a row deletes every row with that id and keeps the others in their order. */
  lemma {:induction false} RemoveRowsKeepsOrder(rows: seq<Row>, id: string)
    ensures RemoveRows(rows, id) == Filter(rows, (x: Row) => x.id != id)
    ensures forall x :: x in RemoveRows(rows, id) ==> x.id != id
    ensures (forall x :: x in rows ==> x.id != id) ==> RemoveRows(rows, id) == rows
  {
    if forall x :: x in rows ==> x.id != id {
      FilterAll(rows, (x: Row) => x.id != id);
    }
  }

  /** Removing a just-added row with a fresh id gives back the rows before. */
  lemma AddThenRemove(rows: seq<Row>, newId: string)
    requires forall x :: x in rows ==> x.id != newId
    ensures RemoveRows(rows + [Row(newId, "", "")], newId) == rows
  {
    var p := (x: Row) => x.id != newId;
    FilterAppend(rows, [Row(newId, "", "")], p);
    FilterAll(rows, p);
    assert Filter([Row(newId, "", "")], p) == [];
  }

  /** An update whose patch keeps the row id can be repeated without further change. */
  lemma PatchIdempotent(rows: seq<Row>, id: string, patch: RowPatch)
    requires patch.id.None? || patch.id.value == id
    ensures PatchRows(PatchRows(rows, id, patch), id, patch) == PatchRows(rows, id, patch)
  {
  }

  /**
   * A patch that changes a row's id moves it out of reach: a second update
   * with the old id no longer touches it.
   */
  lemma PatchRenamesRow(row: Row, newId: string, patch: RowPatch)
    requires patch.id == Some(newId) && newId != row.id
    ensures PatchRows(PatchRows([row], row.id, patch), row.id, patch) == PatchRows([row], row.id, patch)
    ensures PatchRows([row], row.id, patch)[0].id == newId
  {
  }

  /** A form without ingredient rows is disabled only by its title or method. */
  lemma NoRowsNotDisabling(title: string, methodText: string)
    ensures Disabled(title, methodText, []) <==> Trim(title) == "" || Trim(methodText) == ""
  {
  }

  /** A freshly added row is empty, so it disables the form until it is filled in. */
  lemma AddedRowDisables(title: string, methodText: string, rows: seq<Row>, newId: string)
    ensures Disabled(title, methodText, rows + [Row(newId, "", "")])
  {
    var r := rows + [Row(newId, "", "")];
    assert r[|rows|] == Row(newId, "", "");
    assert BlankRow(r[|rows|]);
  }

  /**
   * What an enabled form submits: a non-empty trimmed title and method, a slug
   * in slug form made of the title's words, and rows whose trimmed name and
   * amount are all non-empty.
   */
  lemma EnabledPayload(title: string, imageUrl: string, description: string, methodText: string, rows: seq<Row>)
    requires !Disabled(title, methodText, rows)
    ensures var d := Payload(title, imageUrl, description, methodText, rows);
      && d.title != "" && d.methodText != ""
      && Trim(d.title) == d.title && Trim(d.methodText) == d.methodText
      && IsSlug(d.slug)
      && d.slug == JoinDash(Words(Lower(d.title)))
      && forall i :: 0 <= i < |d.ingredients| ==> d.ingredients[i].name != "" && d.ingredients[i].amount != ""
  {
    var d := Payload(title, imageUrl, description, methodText, rows);
    TrimIdempotent(title);
    TrimIdempotent(methodText);
    assert d.slug == GenerateSlug(Trim(title));
  }

  /** Editing a recipe with no ingredients starts with no rows (an empty array is truthy). */
  lemma EditWithoutIngredients(initial: Recipe, uid: nat -> string)
    requires initial.ingredients == []
    ensures InitialRows(Some(initial), uid) == []
  {
  }
}
