/** Roles, permissions and the single authorization decision. */
module Permissions {
  import opened Prelude
  import opened MailRecords

  datatype MailRole = WorkspaceMember | MailOperator | WorkspaceAdmin | DraftApprover

  datatype MailPermission = ConnectionRead | ConnectionTest | ConnectionCreate | ConnectionDisconnect | DraftApprove
      | SendExecute

  function ParseRole(id: string): Option<MailRole> {
    if id == "workspace_member" then Some(WorkspaceMember)
    else if id == "mail_operator" then Some(MailOperator)
    else if id == "workspace_admin" then Some(WorkspaceAdmin)
    else if id == "draft_approver" then Some(DraftApprover)
    else None
  }

  function ParsePermission(id: string): Option<MailPermission> {
    if id == "mail.connection.read" then Some(ConnectionRead)
    else if id == "mail.connection.test" then Some(ConnectionTest)
    else if id == "mail.connection.create" then Some(ConnectionCreate)
    else if id == "mail.connection.disconnect" then Some(ConnectionDisconnect)
    else if id == "mail.draft.approve" then Some(DraftApprove)
    else if id == "mail.send.execute" then Some(SendExecute)
    else None
  }

  function RolePermissions(role: MailRole): seq<MailPermission> {
    match role
    case WorkspaceMember => [ConnectionRead]
    case MailOperator => [ConnectionRead, ConnectionTest]
    case WorkspaceAdmin => [ConnectionRead, ConnectionTest, ConnectionCreate, ConnectionDisconnect]
    case DraftApprover => [ConnectionRead, DraftApprove]
  }

  /** The table of roles, by the ids that memberships store. */
  predicate RoleIdGrants(roleId: string, p: MailPermission) {
    match p
    case ConnectionRead => roleId in {"workspace_member", "mail_operator", "workspace_admin", "draft_approver"}
    case ConnectionTest => roleId in {"mail_operator", "workspace_admin"}
    case ConnectionCreate => roleId == "workspace_admin"
    case ConnectionDisconnect => roleId == "workspace_admin"
    case DraftApprove => roleId == "draft_approver"
    case SendExecute => false
  }

  /** A stored role id is recognised and grants a permission exactly as the table says. */
  lemma RoleIdGrantsIff(roleId: string, p: MailPermission)
    ensures RoleIdGrants(roleId, p) <==> ParseRole(roleId).Some? && p in RolePermissions(ParseRole(roleId).value)
  {
  }

  const REFUSED_SERVICE_GRANTS := [ConnectionCreate, ConnectionDisconnect, SendExecute]

  datatype Principal =
    | UserPrincipal(userId: string, tenantId: string, workspaceIds: seq<string>, roles: seq<MailRole>,
                    workspaceRoles: Option<map<string, seq<MailRole>>>, sessionId: string)
    | ServicePrincipal(serviceId: string, tenantId: string, workspaceIds: seq<string>, grants: seq<MailPermission>)

  function PermissionsOfRoles(roles: seq<MailRole>): seq<MailPermission> {
    if roles == [] then [] else RolePermissions(roles[0]) + PermissionsOfRoles(roles[1..])
  }

  /** Some role in the list grants the permission. */
  ghost predicate Grants(roles: seq<MailRole>, p: MailPermission) {
    exists r :: r in roles && p in RolePermissions(r)
  }

  lemma {:induction false} PermissionsOfRolesIff(roles: seq<MailRole>, p: MailPermission)
    ensures p in PermissionsOfRoles(roles) <==> Grants(roles, p)
  {
    if roles == [] {
    } else {
      PermissionsOfRolesIff(roles[1..], p);
      assert forall r :: r in roles <==> r == roles[0] || r in roles[1..];
    }
  }

  predicate HasWorkspaceRoles(p: Principal, workspaceId: string) {
    p.UserPrincipal? && p.workspaceRoles.Some? && workspaceId in p.workspaceRoles.value
  }

  function PermissionsOf(p: Principal, workspaceId: string): seq<MailPermission> {
    match p
    case ServicePrincipal(_, _, _, grants) => grants
    case UserPrincipal(_, _, _, roles, workspaceRoles, _) =>
      PermissionsOfRoles(if HasWorkspaceRoles(p, workspaceId) then workspaceRoles.value[workspaceId] else roles)
  }

  /** Why a request is denied: another tenant first, then a foreign workspace, then the missing permission. */
  lemma DenialMeans(p: Principal, permission: MailPermission, target: TenantScope)
    ensures var why := AuthorizeMail(p, permission, target);
      var inside := p.tenantId == target.tenantId && target.workspaceId in p.workspaceIds;
      && (why == Some(CrossTenant) <==> p.tenantId != target.tenantId)
      && (why == Some(WorkspaceForbidden) <==> p.tenantId == target.tenantId && target.workspaceId !in p.workspaceIds)
      && (why == Some(PermissionDenied) <==> inside && permission !in PermissionsOf(p, target.workspaceId))
  {
  }

  datatype Denial = CrossTenant | WorkspaceForbidden | PermissionDenied

  function AuthorizeMail(p: Principal, permission: MailPermission, target: TenantScope): Option<Denial> {
    if p.tenantId != target.tenantId then Some(CrossTenant)
    else if target.workspaceId !in p.workspaceIds then Some(WorkspaceForbidden)
    else if permission !in PermissionsOf(p, target.workspaceId) then Some(PermissionDenied)
    else None
  }
}
