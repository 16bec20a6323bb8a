/** The role name shown in the header of every dashboard page
    (src/components/layout/DashboardLayout.tsx). */
module DashboardLayout {
  import opened Rows

  const DefaultRoleName := "Usuário"

  /** `getRoleName`: the display name of a known role, "Usuário" otherwise. */
  function RoleName(role: Option<string>): (shown: string)
    ensures role == Some("recepcionista") ==> shown == "Recepção"
    ensures role == Some("medicacao") ==> shown == "Medicação"
    ensures role == Some("doutor") ==> shown == "Médico"
    ensures shown == DefaultRoleName <==> role.None? || ParseRole(role.value).None?
  {
    match role
    case Some("recepcionista") => "Recepção"
    case Some("medicacao") => "Medicação"
    case Some("doutor") => "Médico"
    case _ => DefaultRoleName
  }

  /** Different roles get different names, none of them the default. */
  lemma RoleNamesDistinct(a: AppRole, b: AppRole)
    ensures RoleName(Some(RoleText(a))) != DefaultRoleName
    ensures RoleName(Some(RoleText(a))) == RoleName(Some(RoleText(b))) <==> a == b
  {
  }
}
