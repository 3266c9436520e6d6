/** The messages of a conversation, as far as compaction looks at them. */
module Messages {

  datatype Role = System | User | Assistant | Tool

  datatype Kind = Plain | ContextSummary

  datatype Message = Message(role: Role, kind: Kind, content: string, hasToolCalls: bool, decayed: bool)
}
