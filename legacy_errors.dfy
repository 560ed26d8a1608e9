/** The errors the older analyzer reports, and their texts. */
module LegacyErrors {
  import opened Text

  datatype LegacyError =
    | ParseError(fileName: string, message: string)
    | EmptyValue(instruction: string)
    | PortSyntax(text: string, err: NumError)
    | PrivilegedPort(port: int)
    | ChmodArgs
    | ChmodPermission(command: string)
    | ChownGroup(command: string)
    | UserRoot(location: string)
  {
    /** err.Error() */
    function Message(): string {
      match this
      case ParseError(f, m) => "unable to analyze the Dockerfile. Error when parsing " + f + " : " + m
      case EmptyValue(i) => i + " has an empty value"
      case PortSyntax(t, e) => AtoiErrorMessage(t, e)
      case PrivilegedPort(p) => "dockerfile exposes port " + IntToString(p) + PrivilegedPortTail
      case ChmodArgs => "unable to fetch args of chmod command"
      case ChmodPermission(c) => "warning permission set on " + c + ChmodPermissionTail
      case ChownGroup(c) => "warning owner set on " + c + ChownGroupTail
      case UserRoot(l) => "USER directive set to root " + l + UserRootTail
    }
  }

  const PrivilegedPortTail: string :=
    ". TCP/IP port numbers below 1024 are privileged port numbers \n\t\t\tthat enable only the root user to bind to these ports"

  const ChmodPermissionTail: string :=
    " .\n\t\tIn OpenShift, the directories and files that the processes running in the image need to access \n"
    + "\t\tshould have their group ownership set to the root group. They also need to be read/writable by that group as \n"
    + "\t\trecommended by the OpenShift Container Platform-specific guidelines"

  const ChownGroupTail: string :=
    " .\n\t\tIn OpenShift the group ID must always be set to the root group (0)"

  const UserRootTail: string :=
    " could cause an unexpected behavior. In OpenShift, containers are run using arbitrarily assigned user ID"
}
