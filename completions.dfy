/**
 * The chat-completions endpoint both generation routers call. The HTTP call
 * itself is not modelled: an `Upstream` function stands for it and returns
 * the first choice's message content, or the error axios (or the missing
 * `choices[0]`) throws.
 */
module Completions {

  import opened Base

  /** Which of the two fixed prompts is sent, with the topic it is built around. */
  datatype Prompt = TopicIdeas(topic: string) | Article(topic: string)

  /** The model the chat routes always request. */
  const ChatModel := "gpt-3.5-turbo"

  /** `(model, prompt)` to the completion text. */
  type Upstream = (string, Prompt) -> Result<string>
}
