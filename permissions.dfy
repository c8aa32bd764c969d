/**
 * The permission objects a field can carry, with the behaviour the test suite
 * asserts of them. A permission answers two questions: may this request see
 * the field at all (`has_permission`), and may it see the field of this
 * particular object (`has_object_permission`).
 */
module Permissions {

  /** The part of a user account a permission looks at. */
  datatype User = User(isAuthenticated: bool, username: string)

  /** The framework's anonymous user: not authenticated, empty user name. */
  const AnonymousUser := User(false, "")

  /** An inbound request; a permission sees only the user who made it. */
  datatype Request = Request(user: User)

  /** The object being serialized; `artist` is the one attribute a permission here reads. */
  datatype Instance = Instance(artist: string)

  datatype Permission =
    | AllowAny          // always allows
    | AllowNone         // never allows
    | IsAuthenticated   // allows authenticated users
    | IsArtist          // allows the user whose name is the object's artist

  /** `permission.has_permission(request)`. */
  predicate HasPermission(p: Permission, request: Request)
  {
    match p
    case AllowAny => true
    case AllowNone => false
    case IsAuthenticated => request.user.isAuthenticated
    case IsArtist => true
  }

  /** `permission.has_object_permission(request, obj)`. */
  predicate HasObjectPermission(p: Permission, request: Request, obj: Instance)
  {
    match p
    case AllowAny => true
    case AllowNone => false
    case IsAuthenticated => true
    case IsArtist => request.user.username == obj.artist
  }

  /** What the permission tests assert of each permission on its own. */
  lemma PermissionBehaviour(request: Request, obj: Instance)
    ensures HasPermission(AllowAny, request) && HasObjectPermission(AllowAny, request, obj)
    ensures !HasPermission(AllowNone, request) && !HasObjectPermission(AllowNone, request, obj)
    ensures HasPermission(IsAuthenticated, request) <==> request.user.isAuthenticated
    ensures HasObjectPermission(IsArtist, request, obj) <==> request.user.username == obj.artist
    ensures !HasObjectPermission(IsArtist, Request(AnonymousUser), obj) <==> obj.artist != ""
  {
  }
}
