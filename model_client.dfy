/** The language model as the bots see it once loading is abstracted away. */
module ModelClient {

  /** What `model.generate` followed by `tokenizer.decode` yields for a prompt:
    * the decoded text, or an exception with its message. */
  datatype Generation = Decoded(text: string) | Raised(error: string)

  /** Whether `load_model` has set both the model and the tokenizer, and the
    * generation outcome for each question. The prompt template each bot
    * wraps around the question is folded into `generate`. */
  datatype Backend = Backend(loaded: bool, generate: string -> Generation)

  const NotLoadedMessage: string := "\U{274C} Le modèle n'est pas encore chargé."

  const ErrorPrefix: string := "Erreur lors de la génération de la réponse: "
}
