/** Values shared by every handler: optional values, the HTTP outcome of a
    handler, row identifiers, the JavaScript values a request body carries and
    the authenticated caller (`req.user`). */
module Common {

  datatype Option<T> = None | Some(value: T)

  /** The status a handler answers with: 200, 201, 400, 401, 403, 404, 500. */
  datatype Status = Ok | Created | BadRequest | Unauthorized | Forbidden | NotFound | ServerError

  /** Row identifiers. Stored ids are never a falsy JavaScript value (serial
      ids start at 1, UUIDs are non-empty), so `None` stands for both
      `undefined` and `null`. */
  type Id = int

  /** A JavaScript value as read from a parsed JSON body: a missing key reads
      `undefined`, JSON `null` is `Null`. `JsonText(v)` is the text
      `JSON.stringify(v)` produces, kept symbolic. */
  datatype Val =
    | Undefined
    | Null
    | Bool(b: bool)
    | Num(n: int)
    | Str(s: string)
    | Arr(items: seq<Val>)
    | Obj
    | JsonText(source: Val)

  /** JavaScript truthiness. */
  predicate Truthy(v: Val) {
    match v
    case Undefined => false
    case Null => false
    case Bool(b) => b
    case Num(n) => n != 0
    case Str(s) => s != ""
    case _ => true
  }

  /** `v || null`: the value itself when truthy, SQL NULL otherwise. */
  function OrNull(v: Val): (r: Val)
    ensures Truthy(v) ==> r == v
    ensures !Truthy(v) ==> r == Null
  {
    if Truthy(v) then v else Null
  }

  /** Sequelize can write the value into a named replacement of a statement.
      `undefined` has no value and is refused; a plain object cannot be
      escaped; an array is written as the comma-separated list of its
      elements (a nested array in parentheses), which stands for one SQL
      value only when it has exactly one element. Every other value is
      refused before the statement runs, and the handler answers 500. */
  predicate Bindable(v: Val) {
    match v
    case Undefined => false
    case Obj => false
    case Arr(items) => |items| == 1 && (items[0].Undefined? || Bindable(items[0]))
    case _ => true
  }

  /** The one SQL value a bindable replacement stands for: a one-element
      array is its element, and an `undefined` element is written as NULL.
      (Other arrays are never bound; they are returned as they are.) */
  function Bound(v: Val): (r: Val)
    ensures Bindable(v) ==> Bindable(r) && !r.Arr?
    ensures !v.Arr? ==> r == v
    ensures r == Undefined <==> v == Undefined
  {
    match v
    case Arr(items) =>
      if |items| != 1 then v else if items[0].Undefined? then Null else Bound(items[0])
    case _ => v
  }

  /** An object, an empty array, a two-element array and an array holding
      an object cannot be bound; text and SQL NULL can. */
  lemma UnbindableValues()
    ensures !Bindable(Obj) && !Bindable(Arr([])) && !Bindable(Arr([Str("a"), Str("b")])) && !Bindable(Arr([Obj]))
    ensures Bindable(Str("a")) && Bindable(Null) && Bound(Arr([Str("a")])) == Str("a")
  {
  }

  /** Wrapping a value in a one-element array changes nothing about how it
      is written. */
  lemma SingletonBindsAsElement(v: Val)
    ensures Bindable(Arr([v])) <==> v.Undefined? || Bindable(v)
    ensures Bindable(v) ==> Bound(Arr([v])) == Bound(v)
  {
  }

  /** JavaScript truthiness of an optional string: present and non-empty. */
  predicate Filled(s: Option<string>) {
    s.Some? && s.value != ""
  }

  /** Role names as the source spells them. */
  const GUEST := "guest"
  const USER := "user"
  const WORKER := "worker"
  const MANAGER := "manager"
  const CREATOR := "creator"
  const ADMIN := "admin"

  /** The fallback display name of anonymous comments and reviews. */
  const ANONYMOUS := "Аноним"

  /** The authenticated caller, `req.user`: each field may be missing. */
  datatype Actor = Actor(id: Option<Id>, userId: Option<Id>, username: Option<string>, role: Option<string>)

  /** `req.user.id || req.user.userId`. */
  function ActorKey(a: Actor): (r: Option<Id>)
    ensures r.Some? <==> a.id.Some? || a.userId.Some?
    ensures a.id.Some? ==> r == a.id
    ensures a.id.None? ==> r == a.userId
  {
    if a.id.Some? then a.id else a.userId
  }

  /** The caller holds `role`. */
  predicate HasRole(actor: Option<Actor>, role: string) {
    actor.Some? && actor.value.role == Some(role)
  }
}
