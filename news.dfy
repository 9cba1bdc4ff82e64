/** The `news` table and the handlers that write it: creation (with or
    without an uploaded image), the COALESCE update and deletion. */
module News {
  import opened Common
  import opened Policy
  import opened Upload

  /** A `news` row. `authorId` may be null in stored rows. */
  datatype Item = Item(title: Val, content: Val, author: string, authorId: Option<Id>, imageUrl: Val)

  /** `COALESCE(:value, column)`: SQL NULL keeps the stored value. */
  function Coalesce(value: Val, current: Val): (r: Val)
    ensures r == value || r == current
    ensures r == current <==> value == Null || value == current
  {
    if value == Null then current else value
  }

  /** The row after `UPDATE news SET title = COALESCE(...), content = ...,
      image_url = ...`; author fields are never touched. */
  function Revise(item: Item, title: Val, content: Val, imageUrl: Val): (r: Item)
    ensures r.author == item.author && r.authorId == item.authorId
    ensures r.title == Coalesce(title, item.title)
    ensures r.content == Coalesce(content, item.content)
    ensures r.imageUrl == Coalesce(imageUrl, item.imageUrl)
  {
    item.(title := Coalesce(title, item.title), content := Coalesce(content, item.content),
          imageUrl := Coalesce(imageUrl, item.imageUrl))
  }

  /** An update with every field null changes nothing. */
  lemma NullRevisionKeepsItem(item: Item)
    ensures Revise(item, Null, Null, Null) == item
  {
  }

  /** Repeating an update has no further effect. */
  lemma ReviseIdempotent(item: Item, title: Val, content: Val, imageUrl: Val)
    ensures Revise(Revise(item, title, content, imageUrl), title, content, imageUrl) == Revise(item, title, content, imageUrl)
  {
  }

  /** The title and content both present and non-empty. */
  predicate HasBody(title: Val, content: Val) {
    Truthy(title) && Truthy(content)
  }

  class NewsTable {
    var items: map<Id, Item>
    var nextNewsId: Id

    /** The serial counter is ahead of every stored news id. */
    ghost predicate Valid()
      reads this
    {
      forall id :: id in items ==> id < nextNewsId
    }

    constructor ()
      ensures Valid() && items == map[] && nextNewsId == 1
    {
      items := map[];
      nextNewsId := 1;
    }

    /** Stores a new row under the next serial id. */
    method Insert(item: Item) returns (id: Id)
      requires Valid()
      modifies this
      ensures Valid()
      ensures id == old(nextNewsId) && id !in old(items)
      ensures items == old(items)[id := item] && nextNewsId == old(nextNewsId) + 1
    {
      id := nextNewsId;
      items := items[id := item];
      nextNewsId := nextNewsId + 1;
    }

    /** `createNews`: title and content are checked before the role; only
        the creator may post; author and author id come from the caller,
        whatever the body says; an image URL is kept when truthy. A caller
        record lacking an id or a username, or a value Sequelize cannot bind,
        fails the insert. */
    method CreateNews(actor: Option<Actor>, title: Val, content: Val, imageUrl: Val)
      returns (status: Status, created: Option<Item>)
      requires Valid()
      modifies this
      ensures Valid()
      ensures !HasBody(title, content) ==> status == BadRequest
      ensures HasBody(title, content) && !IsCreator(actor) ==> status == Forbidden
      ensures status == Created <==>
                HasBody(title, content) && IsCreator(actor) && actor.value.id.Some? && actor.value.username.Some? &&
                Bindable(title) && Bindable(content) && Bindable(OrNull(imageUrl))
      ensures status == ServerError <==>
                HasBody(title, content) && IsCreator(actor) &&
                (actor.value.id.None? || actor.value.username.None? ||
                 !Bindable(title) || !Bindable(content) || !Bindable(OrNull(imageUrl)))
      ensures status != Created ==> items == old(items) && nextNewsId == old(nextNewsId) && created.None?
      ensures status == Created ==>
                var item := Item(Bound(title), Bound(content), actor.value.username.value, actor.value.id,
                                 Bound(OrNull(imageUrl)));
                items == old(items)[old(nextNewsId) := item] && nextNewsId == old(nextNewsId) + 1 &&
                created == Some(item)
    {
      if !Truthy(title) || !Truthy(content) {
        return BadRequest, None;
      }
      if !IsCreator(actor) {
        return Forbidden, None;
      }
      var authorId := actor.value.id;
      var authorName := actor.value.username;
      if authorId.None? || authorName.None? || !Bindable(title) || !Bindable(content) || !Bindable(OrNull(imageUrl)) {
        return ServerError, None;
      }
      var item := Item(Bound(title), Bound(content), authorName.value, authorId, Bound(OrNull(imageUrl)));
      var _ := Insert(item);
      status, created := Created, Some(item);
    }

    /** `createNewsWithUpload`: as `createNews`, with the image URL taken
        from the stored file (`/uploads/<name>`) or null without one. The
        body's `author` would only be used for a missing caller, which the
        creator gate has already turned away. */
    method CreateNewsWithUpload(actor: Option<Actor>, title: Val, content: Val, storedFile: Option<string>)
      returns (status: Status, created: Option<Item>)
      requires Valid()
      modifies this
      ensures Valid()
      ensures !HasBody(title, content) ==> status == BadRequest
      ensures HasBody(title, content) && !IsCreator(actor) ==> status == Forbidden
      ensures status == Created <==>
                HasBody(title, content) && IsCreator(actor) && actor.value.id.Some? && actor.value.username.Some? &&
                Bindable(title) && Bindable(content)
      ensures status == ServerError <==>
                HasBody(title, content) && IsCreator(actor) &&
                (actor.value.id.None? || actor.value.username.None? || !Bindable(title) || !Bindable(content))
      ensures status != Created ==> items == old(items) && nextNewsId == old(nextNewsId) && created.None?
      ensures status == Created ==>
                var item := Item(Bound(title), Bound(content), actor.value.username.value, actor.value.id,
                                 StoredImageUrl(storedFile));
                items == old(items)[old(nextNewsId) := item] && nextNewsId == old(nextNewsId) + 1 &&
                created == Some(item)
    {
      if !Truthy(title) || !Truthy(content) {
        return BadRequest, None;
      }
      if !IsCreator(actor) {
        return Forbidden, None;
      }
      var imageUrl := Null;
      if storedFile.Some? {
        imageUrl := Str(UPLOADS_PATH + storedFile.value);
      }
      var authorId := actor.value.id;
      var authorName := actor.value.username;
      if authorId.None? || authorName.None? || !Bindable(title) || !Bindable(content) {
        return ServerError, None;
      }
      var item := Item(Bound(title), Bound(content), authorName.value, authorId, imageUrl);
      var _ := Insert(item);
      status, created := Created, Some(item);
    }

    /** `updateNews`: 404 for an unknown id, then the editor-or-author gate;
        a field passed as null keeps its stored value, an absent one or one
        Sequelize cannot bind fails the statement. */
    method UpdateNews(actor: Option<Actor>, id: Id, title: Val, content: Val, imageUrl: Val)
      returns (status: Status, updated: Option<Item>)
      requires Valid()
      modifies this
      ensures Valid() && nextNewsId == old(nextNewsId)
      ensures status == NotFound <==> id !in old(items)
      ensures status == Forbidden <==> id in old(items) && !CanManageNews(actor, old(items)[id].authorId)
      ensures status == ServerError <==>
                id in old(items) && CanManageNews(actor, old(items)[id].authorId) &&
                !(Bindable(title) && Bindable(content) && Bindable(imageUrl))
      ensures status == Ok <==>
                id in old(items) && CanManageNews(actor, old(items)[id].authorId) &&
                Bindable(title) && Bindable(content) && Bindable(imageUrl)
      ensures status != Ok ==> items == old(items) && updated.None?
      ensures status == Ok ==>
                items == old(items)[id := Revise(old(items)[id], Bound(title), Bound(content), Bound(imageUrl))] &&
                updated == Some(items[id])
    {
      if id !in items {
        return NotFound, None;
      }
      var existing := items[id];
      if !CanManageNews(actor, existing.authorId) {
        return Forbidden, None;
      }
      if !Bindable(title) || !Bindable(content) || !Bindable(imageUrl) {
        return ServerError, None;
      }
      var revised := Revise(existing, Bound(title), Bound(content), Bound(imageUrl));
      items := items[id := revised];
      status, updated := Ok, Some(revised);
    }

    /** `deleteNews`: 404 for an unknown id, then the editor-or-author gate;
        only that row is removed. */
    method DeleteNews(actor: Option<Actor>, id: Id) returns (status: Status)
      requires Valid()
      modifies this
      ensures Valid() && nextNewsId == old(nextNewsId)
      ensures status == NotFound <==> id !in old(items)
      ensures status == Forbidden <==> id in old(items) && !CanManageNews(actor, old(items)[id].authorId)
      ensures status == Ok <==> id in old(items) && CanManageNews(actor, old(items)[id].authorId)
      ensures status == Ok ==> items == old(items) - {id}
      ensures status != Ok ==> items == old(items)
    {
      if id !in items {
        return NotFound;
      }
      if !CanManageNews(actor, items[id].authorId) {
        return Forbidden;
      }
      items := items - {id};
      status := Ok;
    }
  }
}
