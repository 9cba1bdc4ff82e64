/** The `drinks` table and the creator-only handlers that write it. The
    partial update builds its SET list from the fields the body defines. */
module Drinks {
  import opened Common
  import opened Policy
  import opened Upload
  import opened JsNumbers

  /** A `drinks` row, each column as the JSON value written to it.
      `ingredients` holds the serialised list. */
  datatype Drink = Drink(name: Val, description: Val, price: Val, category: Val, imageUrl: Val, ingredients: Val)

  /** The columns the update may set, in the order the handler tries them. */
  datatype Column = NameCol | DescriptionCol | PriceCol | CategoryCol | ImageUrlCol | IngredientsCol

  function Rank(c: Column): nat {
    match c
    case NameCol => 0
    case DescriptionCol => 1
    case PriceCol => 2
    case CategoryCol => 3
    case ImageUrlCol => 4
    case IngredientsCol => 5
  }

  function Get(d: Drink, c: Column): Val {
    match c
    case NameCol => d.name
    case DescriptionCol => d.description
    case PriceCol => d.price
    case CategoryCol => d.category
    case ImageUrlCol => d.imageUrl
    case IngredientsCol => d.ingredients
  }

  function Set(d: Drink, c: Column, v: Val): (r: Drink)
    ensures Get(r, c) == v
    ensures forall other :: other != c ==> Get(r, other) == Get(d, other)
  {
    match c
    case NameCol => d.(name := v)
    case DescriptionCol => d.(description := v)
    case PriceCol => d.(price := v)
    case CategoryCol => d.(category := v)
    case ImageUrlCol => d.(imageUrl := v)
    case IngredientsCol => d.(ingredients := v)
  }

  /** Two rows that agree on every column are the same row. */
  lemma DrinkExtensionality(a: Drink, b: Drink)
    requires forall c :: Get(a, c) == Get(b, c)
    ensures a == b
  {
    assert Get(a, NameCol) == Get(b, NameCol) && Get(a, DescriptionCol) == Get(b, DescriptionCol);
    assert Get(a, PriceCol) == Get(b, PriceCol) && Get(a, CategoryCol) == Get(b, CategoryCol);
    assert Get(a, ImageUrlCol) == Get(b, ImageUrlCol) && Get(a, IngredientsCol) == Get(b, IngredientsCol);
  }

  /** The body fields of a create or update request; a missing key is
      `Undefined`. */
  datatype DrinkBody = DrinkBody(name: Val, description: Val, price: Val, category: Val, imageUrl: Val, ingredients: Val)

  function Field(body: DrinkBody, c: Column): Val {
    match c
    case NameCol => body.name
    case DescriptionCol => body.description
    case PriceCol => body.price
    case CategoryCol => body.category
    case ImageUrlCol => body.imageUrl
    case IngredientsCol => body.ingredients
  }

  /** The value written for a body field: ingredients are serialised with
      `JSON.stringify`, every other field is written as given. */
  function Written(c: Column, v: Val): Val {
    if c == IngredientsCol then JsonText(v) else v
  }

  /** The body defines no field at all. */
  predicate NoFields(body: DrinkBody) {
    forall c :: Field(body, c) == Undefined
  }

  /** The row after the update the body describes: defined fields written,
      undefined fields untouched. */
  function Patched(d: Drink, body: DrinkBody): (r: Drink)
    ensures forall c :: Field(body, c) == Undefined ==> Get(r, c) == Get(d, c)
    ensures forall c :: Field(body, c) != Undefined ==> Get(r, c) == Written(c, Field(body, c))
  {
    Drink(
      if body.name != Undefined then body.name else d.name,
      if body.description != Undefined then body.description else d.description,
      if body.price != Undefined then body.price else d.price,
      if body.category != Undefined then body.category else d.category,
      if body.imageUrl != Undefined then body.imageUrl else d.imageUrl,
      if body.ingredients != Undefined then JsonText(body.ingredients) else d.ingredients)
  }

  /** An update whose body defines nothing would leave the row as it is. */
  lemma EmptyPatchKeepsDrink(d: Drink, body: DrinkBody)
    requires NoFields(body)
    ensures Patched(d, body) == d
  {
    DrinkExtensionality(Patched(d, body), d);
  }

  /** One `column = :value` item of the SET list. */
  datatype Assignment = Assignment(column: Column, value: Val)

  predicate Listed(fields: seq<Assignment>, c: Column) {
    exists i :: 0 <= i < |fields| && fields[i].column == c
  }

  /** Columns appear in handler order, hence at most once. */
  predicate Ordered(fields: seq<Assignment>) {
    forall i, j :: 0 <= i < j < |fields| ==> Rank(fields[i].column) < Rank(fields[j].column)
  }

  /** `fields` is the SET list for the columns ranked below `k`. */
  predicate ClauseUpTo(fields: seq<Assignment>, body: DrinkBody, k: nat) {
    Ordered(fields) &&
    (forall i :: 0 <= i < |fields| ==>
       Rank(fields[i].column) < k && fields[i].value == Written(fields[i].column, Field(body, fields[i].column))) &&
    (forall c :: Listed(fields, c) <==> Rank(c) < k && Field(body, c) != Undefined)
  }

  /** One more `if (field !== undefined) fields.push(...)` extends the list
      by the next column. */
  lemma PushKeepsClause(fields: seq<Assignment>, body: DrinkBody, c: Column)
    requires ClauseUpTo(fields, body, Rank(c))
    ensures var next := if Field(body, c) != Undefined then fields + [Assignment(c, Written(c, Field(body, c)))] else fields;
            ClauseUpTo(next, body, Rank(c) + 1)
  {
    if Field(body, c) != Undefined {
      var next := fields + [Assignment(c, Written(c, Field(body, c)))];
      forall d
        ensures Listed(next, d) <==> Rank(d) < Rank(c) + 1 && Field(body, d) != Undefined
      {
        if Listed(fields, d) {
          var i :| 0 <= i < |fields| && fields[i].column == d;
          assert next[i].column == d;
        }
        if d == c {
          assert next[|fields|].column == d;
        }
        if Listed(next, d) && d != c {
          var i :| 0 <= i < |next| && next[i].column == d;
          assert fields[i].column == d;
        }
        if Rank(d) < Rank(c) + 1 && d != c {
          assert Rank(d) < Rank(c);
        }
      }
    } else {
      forall d
        ensures Listed(fields, d) <==> Rank(d) < Rank(c) + 1 && Field(body, d) != Undefined
      {
        if Rank(d) == Rank(c) {
          assert d == c;
        }
      }
    }
  }

  /** A list covering every column is the whole SET list; it is empty
      exactly when the body defines nothing. */
  lemma ClauseComplete(fields: seq<Assignment>, body: DrinkBody)
    requires ClauseUpTo(fields, body, 6)
    ensures Ordered(fields)
    ensures forall c :: Listed(fields, c) <==> Field(body, c) != Undefined
    ensures forall i :: 0 <= i < |fields| ==> fields[i].value == Written(fields[i].column, Field(body, fields[i].column))
    ensures |fields| == 0 <==> NoFields(body)
  {
    assert forall c :: Rank(c) < 6;
    if |fields| != 0 {
      assert Listed(fields, fields[0].column);
    }
  }

  /** `if (<field> !== undefined) fields.push('<column> = :<column>')`. */
  method PushIfDefined(fields: seq<Assignment>, body: DrinkBody, c: Column) returns (next: seq<Assignment>)
    requires ClauseUpTo(fields, body, Rank(c))
    ensures ClauseUpTo(next, body, Rank(c) + 1)
    ensures Field(body, c) == Undefined ==> next == fields
    ensures Field(body, c) != Undefined ==> next == fields + [Assignment(c, Written(c, Field(body, c)))]
  {
    PushKeepsClause(fields, body, c);
    next := fields;
    if Field(body, c) != Undefined {
      next := fields + [Assignment(c, Written(c, Field(body, c)))];
    }
  }

  /** The SET list: one item per defined field, in the order name,
      description, price, category, image_url, ingredients. */
  method SetClause(body: DrinkBody) returns (fields: seq<Assignment>)
    ensures Ordered(fields)
    ensures forall c :: Listed(fields, c) <==> Field(body, c) != Undefined
    ensures forall i :: 0 <= i < |fields| ==> fields[i].value == Written(fields[i].column, Field(body, fields[i].column))
    ensures |fields| == 0 <==> NoFields(body)
  {
    fields := [];
    fields := PushIfDefined(fields, body, NameCol);
    fields := PushIfDefined(fields, body, DescriptionCol);
    fields := PushIfDefined(fields, body, PriceCol);
    fields := PushIfDefined(fields, body, CategoryCol);
    fields := PushIfDefined(fields, body, ImageUrlCol);
    fields := PushIfDefined(fields, body, IngredientsCol);
    ClauseComplete(fields, body);
  }

  /** `UPDATE drinks SET <fields>`: each item in turn. */
  function Apply(d: Drink, fields: seq<Assignment>): (r: Drink)
    ensures forall c :: !Listed(fields, c) ==> Get(r, c) == Get(d, c)
    ensures fields != [] && !Listed(fields[1..], fields[0].column) ==> Get(r, fields[0].column) == fields[0].value
    decreases |fields|
  {
    if fields == [] then d else Apply(Set(d, fields[0].column, fields[0].value), fields[1..])
  }

  /** Applying an ordered SET list writes every listed column with its item's
      value and leaves the others alone. */
  lemma {:induction false} ApplyOrdered(d: Drink, fields: seq<Assignment>, c: Column)
    requires Ordered(fields)
    ensures !Listed(fields, c) ==> Get(Apply(d, fields), c) == Get(d, c)
    ensures forall i :: 0 <= i < |fields| && fields[i].column == c ==> Get(Apply(d, fields), c) == fields[i].value
    decreases |fields|
  {
    if fields != [] {
      var rest := fields[1..];
      var first := fields[0];
      assert Ordered(rest);
      ApplyOrdered(Set(d, first.column, first.value), rest, c);
      if first.column == c {
        assert !Listed(rest, c);
      } else {
        assert Listed(fields, c) ==> Listed(rest, c) by {
          if Listed(fields, c) {
            var i :| 0 <= i < |fields| && fields[i].column == c;
            assert rest[i - 1].column == c;
          }
        }
        forall i | 0 <= i < |fields| && fields[i].column == c
          ensures Get(Apply(d, fields), c) == fields[i].value
        {
          assert rest[i - 1] == fields[i];
        }
      }
    }
  }

  /** The SET list the handler builds, applied to a row, gives exactly the
      patched row. */
  lemma SetClauseMeetsPatch(d: Drink, body: DrinkBody, fields: seq<Assignment>)
    requires Ordered(fields)
    requires forall c :: Listed(fields, c) <==> Field(body, c) != Undefined
    requires forall i :: 0 <= i < |fields| ==> fields[i].value == Written(fields[i].column, Field(body, fields[i].column))
    ensures Apply(d, fields) == Patched(d, body)
  {
    forall c
      ensures Get(Apply(d, fields), c) == Get(Patched(d, body), c)
    {
      ApplyOrdered(d, fields, c);
      if Listed(fields, c) {
        var i :| 0 <= i < |fields| && fields[i].column == c;
      }
    }
    DrinkExtensionality(Apply(d, fields), Patched(d, body));
  }

  /** Sequelize can bind the values `createDrink` inserts: name and
      description as given, price, category and image URL as `v || null`. */
  predicate InsertBinds(body: DrinkBody) {
    Bindable(body.name) && Bindable(body.description) && Bindable(OrNull(body.price)) &&
    Bindable(OrNull(body.category)) && Bindable(OrNull(body.imageUrl))
  }

  /** Sequelize can bind the text values `createDrinkWithUpload` inserts:
      the name as given, description and category as `v || null`. */
  predicate UploadBinds(name: Val, description: Val, category: Val) {
    Bindable(name) && Bindable(OrNull(description)) && Bindable(OrNull(category))
  }

  /** Sequelize can bind every value of the SET list. */
  predicate ClauseBinds(fields: seq<Assignment>) {
    forall i :: 0 <= i < |fields| ==> Bindable(fields[i].value)
  }

  /** Every field the update writes as given can be bound; the serialised
      ingredients are text and always can. */
  predicate BodyBinds(body: DrinkBody) {
    forall c :: c != IngredientsCol && Field(body, c) != Undefined ==> Bindable(Field(body, c))
  }

  /** The SET list with each value as Sequelize writes it. */
  function BindClause(fields: seq<Assignment>): seq<Assignment> {
    seq(|fields|, i requires 0 <= i < |fields| => Assignment(fields[i].column, Bound(fields[i].value)))
  }

  /** The body with every field other than the ingredients replaced by the
      value Sequelize writes for it. */
  function BoundBody(body: DrinkBody): (r: DrinkBody)
    ensures forall c :: Field(r, c) == Undefined <==> Field(body, c) == Undefined
    ensures forall c :: c != IngredientsCol ==> Field(r, c) == Bound(Field(body, c))
    ensures r.ingredients == body.ingredients
  {
    DrinkBody(Bound(body.name), Bound(body.description), Bound(body.price), Bound(body.category), Bound(body.imageUrl),
              body.ingredients)
  }

  /** The handler's SET list can be bound exactly when the body's written
      fields can. */
  lemma ClauseBindsIff(body: DrinkBody, fields: seq<Assignment>)
    requires forall c :: Listed(fields, c) <==> Field(body, c) != Undefined
    requires forall i :: 0 <= i < |fields| ==> fields[i].value == Written(fields[i].column, Field(body, fields[i].column))
    ensures ClauseBinds(fields) <==> BodyBinds(body)
  {
    if ClauseBinds(fields) {
      forall c | c != IngredientsCol && Field(body, c) != Undefined
        ensures Bindable(Field(body, c))
      {
        assert Listed(fields, c);
        var i :| 0 <= i < |fields| && fields[i].column == c;
        assert Bindable(fields[i].value);
      }
    }
    if BodyBinds(body) {
      forall i | 0 <= i < |fields|
        ensures Bindable(fields[i].value)
      {
        assert Listed(fields, fields[i].column);
      }
    }
  }

  /** The bound SET list, applied to a row, gives the row patched with the
      bound body. */
  lemma BoundClauseMeetsPatch(d: Drink, body: DrinkBody, fields: seq<Assignment>)
    requires Ordered(fields)
    requires forall c :: Listed(fields, c) <==> Field(body, c) != Undefined
    requires forall i :: 0 <= i < |fields| ==> fields[i].value == Written(fields[i].column, Field(body, fields[i].column))
    ensures Apply(d, BindClause(fields)) == Patched(d, BoundBody(body))
  {
    var bound := BindClause(fields);
    var b := BoundBody(body);
    forall c
      ensures Listed(bound, c) <==> Field(b, c) != Undefined
    {
      if Listed(bound, c) {
        var i :| 0 <= i < |bound| && bound[i].column == c;
        assert fields[i].column == c;
      }
      if Listed(fields, c) {
        var i :| 0 <= i < |fields| && fields[i].column == c;
        assert bound[i].column == c;
      }
    }
    forall i | 0 <= i < |bound|
      ensures bound[i].value == Written(bound[i].column, Field(b, bound[i].column))
    {
      var c := fields[i].column;
      if c != IngredientsCol {
        assert Field(b, c) == Bound(Field(body, c));
      }
    }
    SetClauseMeetsPatch(d, b, bound);
  }

  class Menu {
    var drinks: map<Id, Drink>
    var nextDrinkId: Id

    /** The serial counter is ahead of every stored drink id. */
    ghost predicate Valid()
      reads this
    {
      forall id :: id in drinks ==> id < nextDrinkId
    }

    constructor ()
      ensures Valid() && drinks == map[] && nextDrinkId == 1
    {
      drinks := map[];
      nextDrinkId := 1;
    }

    /** `createDrink`: the name is checked before the role; only the creator
        may add drinks; price, category and image URL are kept when truthy,
        ingredients serialised when truthy; an absent description, or any
        inserted value Sequelize cannot bind, fails the insert. */
    method CreateDrink(actor: Option<Actor>, body: DrinkBody) returns (status: Status, created: Option<Drink>)
      requires Valid()
      modifies this
      ensures Valid()
      ensures !Truthy(body.name) ==> status == BadRequest
      ensures Truthy(body.name) && !IsCreator(actor) ==> status == Forbidden
      ensures status == Created <==> Truthy(body.name) && IsCreator(actor) && InsertBinds(body)
      ensures status == ServerError <==> Truthy(body.name) && IsCreator(actor) && !InsertBinds(body)
      ensures status != Created ==> drinks == old(drinks) && nextDrinkId == old(nextDrinkId) && created.None?
      ensures status == Created ==>
                var row := Drink(Bound(body.name), Bound(body.description), Bound(OrNull(body.price)),
                                 Bound(OrNull(body.category)), Bound(OrNull(body.imageUrl)),
                                 if Truthy(body.ingredients) then JsonText(body.ingredients) else Null);
                drinks == old(drinks)[old(nextDrinkId) := row] && nextDrinkId == old(nextDrinkId) + 1 &&
                created == Some(row)
    {
      if !Truthy(body.name) {
        return BadRequest, None;
      }
      if !IsCreator(actor) {
        return Forbidden, None;
      }
      if !InsertBinds(body) {
        return ServerError, None;
      }
      var ingredients := if Truthy(body.ingredients) then JsonText(body.ingredients) else Null;
      var row := Drink(Bound(body.name), Bound(body.description), Bound(OrNull(body.price)), Bound(OrNull(body.category)),
                       Bound(OrNull(body.imageUrl)), ingredients);
      drinks := drinks[nextDrinkId := row];
      nextDrinkId := nextDrinkId + 1;
      status, created := Created, Some(row);
    }

    /** `createDrinkWithUpload`: as `createDrink`, with the image URL taken
        from the stored file; description, price and category are kept when
        truthy and ingredients are not written. A truthy price `parseFloat`
        cannot read as a finite number, or a name, description or category
        Sequelize cannot bind, fails the insert. */
    method CreateDrinkWithUpload(actor: Option<Actor>, name: Val, description: Val, price: Val, category: Val,
                                 storedFile: Option<string>)
      returns (status: Status, created: Option<Drink>)
      requires Valid()
      modifies this
      ensures Valid()
      ensures !Truthy(name) ==> status == BadRequest
      ensures Truthy(name) && !IsCreator(actor) ==> status == Forbidden
      ensures status == ServerError <==>
                Truthy(name) && IsCreator(actor) &&
                ((Truthy(price) && !ParsesAsFloat(price)) || !UploadBinds(name, description, category))
      ensures status == Created <==>
                Truthy(name) && IsCreator(actor) &&
                (Truthy(price) ==> ParsesAsFloat(price)) && UploadBinds(name, description, category)
      ensures status != Created ==> drinks == old(drinks) && nextDrinkId == old(nextDrinkId) && created.None?
      ensures status == Created ==>
                var row := Drink(Bound(name), Bound(OrNull(description)), OrNull(price), Bound(OrNull(category)),
                                 StoredImageUrl(storedFile), Null);
                drinks == old(drinks)[old(nextDrinkId) := row] && nextDrinkId == old(nextDrinkId) + 1 &&
                created == Some(row)
    {
      if !Truthy(name) {
        return BadRequest, None;
      }
      if !IsCreator(actor) {
        return Forbidden, None;
      }
      if (Truthy(price) && !ParsesAsFloat(price)) || !UploadBinds(name, description, category) {
        return ServerError, None;
      }
      var imageUrl := Null;
      if storedFile.Some? {
        imageUrl := Str(UPLOADS_PATH + storedFile.value);
      }
      var row := Drink(Bound(name), Bound(OrNull(description)), OrNull(price), Bound(OrNull(category)), imageUrl, Null);
      drinks := drinks[nextDrinkId := row];
      nextDrinkId := nextDrinkId + 1;
      status, created := Created, Some(row);
    }

    /** `updateDrink`: creator only; a body defining no field is 400; a SET
        list Sequelize cannot bind fails the statement (500) whether or not
        the row exists; an unknown id is 404; otherwise exactly the defined
        fields are written, as bound. */
    method UpdateDrink(actor: Option<Actor>, id: Id, body: DrinkBody) returns (status: Status, updated: Option<Drink>)
      requires Valid()
      modifies this
      ensures Valid() && nextDrinkId == old(nextDrinkId)
      ensures !IsCreator(actor) ==> status == Forbidden
      ensures IsCreator(actor) && NoFields(body) ==> status == BadRequest
      ensures status == ServerError <==> IsCreator(actor) && !NoFields(body) && !BodyBinds(body)
      ensures status == NotFound <==> IsCreator(actor) && !NoFields(body) && BodyBinds(body) && id !in old(drinks)
      ensures status == Ok <==> IsCreator(actor) && !NoFields(body) && BodyBinds(body) && id in old(drinks)
      ensures status != Ok ==> drinks == old(drinks) && updated.None?
      ensures status == Ok ==>
                drinks == old(drinks)[id := Patched(old(drinks)[id], BoundBody(body))] && updated == Some(drinks[id])
    {
      if !IsCreator(actor) {
        return Forbidden, None;
      }
      var fields := SetClause(body);
      if |fields| == 0 {
        return BadRequest, None;
      }
      ClauseBindsIff(body, fields);
      if !ClauseBinds(fields) {
        return ServerError, None;
      }
      if id !in drinks {
        return NotFound, None;
      }
      var row := Apply(drinks[id], BindClause(fields));
      BoundClauseMeetsPatch(drinks[id], body, fields);
      drinks := drinks[id := row];
      status, updated := Ok, Some(row);
    }

    /** `deleteDrink`: creator only; an unknown id is 404; only that row is
        removed. */
    method DeleteDrink(actor: Option<Actor>, id: Id) returns (status: Status)
      requires Valid()
      modifies this
      ensures Valid() && nextDrinkId == old(nextDrinkId)
      ensures !IsCreator(actor) ==> status == Forbidden
      ensures status == NotFound <==> IsCreator(actor) && id !in old(drinks)
      ensures status == Ok <==> IsCreator(actor) && id in old(drinks)
      ensures status == Ok ==> drinks == old(drinks) - {id}
      ensures status != Ok ==> drinks == old(drinks)
    {
      if !IsCreator(actor) {
        return Forbidden;
      }
      if id !in drinks {
        return NotFound;
      }
      drinks := drinks - {id};
      status := Ok;
    }
  }
}
