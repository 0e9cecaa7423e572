/** Chat messages, as `src/ai/types.cpp` names their roles. */
module ChatRoles {
  datatype Role = System | User | Assistant | Tool

  datatype ChatMessage = ChatMessage(role: Role, content: string)

  function RoleName(r: Role): string {
    match r
    case System => "system"
    case User => "user"
    case Assistant => "assistant"
    case Tool => "tool"
  }

  /** Unknown names count as the user. */
  function RoleNamed(name: string): Role {
    if name == "system" then System
    else if name == "assistant" then Assistant
    else if name == "tool" then Tool
    else User
  }

  /** A stored role is read back as itself. */
  lemma RoleReadsBack(r: Role)
    ensures RoleNamed(RoleName(r)) == r
  {
    assert "system"[0] == 's' && "assistant"[0] == 'a' && "tool"[0] == 't' && "user"[0] == 'u';
  }
}
