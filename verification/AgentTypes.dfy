/** Enumerations several components share. */
module AgentTypes {
  datatype AgentType = Acp | A2a | OpenclawGateway | Nanobot | Remote | TjuaeCli | Gemini | Codex

  datatype ConversationStatus = Pending | Running | Finished
}
