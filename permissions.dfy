/** `IsParticipantOfConversation.has_permission`, the view-level permission
    of the chats API: the mutating methods PATCH, PUT and DELETE are let
    through unconditionally, every other method needs an authenticated
    user. Despite its name the class looks at no conversation. */
module ChatsPermissions {
  import ChatsMiddleware
  import Text

  const OpenMethods: seq<string> := ["PATCH", "PUT", "DELETE"]

  /** `request.user.is_authenticated`; a request without a user object is
      the anonymous user. */
  predicate IsAuthenticated(request: ChatsMiddleware.Request)
  {
    request.user.Some? && request.user.value.isAuthenticated
  }

  /** `has_permission(request, view)`. The view is passed and ignored. */
  function HasPermission<View>(request: ChatsMiddleware.Request, view: View): (allowed: bool)
    ensures request.verb in OpenMethods ==> allowed
    ensures request.verb !in OpenMethods ==> (allowed <==> IsAuthenticated(request))
    ensures IsAuthenticated(request) ==> allowed
  {
    if request.verb in OpenMethods then true else IsAuthenticated(request)
  }

  /** The decision depends on the request alone, never on the view. */
  lemma PermissionIgnoresView<View>(request: ChatsMiddleware.Request, v1: View, v2: View)
    ensures HasPermission(request, v1) == HasPermission(request, v2)
  {
  }

  /** The permission lets an anonymous PATCH, PUT or DELETE on a chat path
      through. When the role-checking middleware is installed, it has
      already refused that request: the methods the permission opens are the
      ones the middleware restricts. */
  lemma AnonymousWritesStoppedEarlier<View>(request: ChatsMiddleware.Request, view: View)
    requires request.verb in OpenMethods && !IsAuthenticated(request)
    requires Text.Contains(request.path, "chats")
    ensures HasPermission(request, view)
    ensures ChatsMiddleware.RolePermission(request) == ChatsMiddleware.Refused(403, ChatsMiddleware.NoPermissionMessage)
  {
    assert request.verb in ChatsMiddleware.RestrictedMethods;
  }
}
