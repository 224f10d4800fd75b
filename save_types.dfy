/**
 * The save lifecycle shared by the command palette and the memory saver
 * panel: the status shown next to the save button and what the save
 * collaborator did when it was called.
 */
module SaveTypes {

  datatype SaveStatus = Idle | Saving | Success | Error

  /** The collaborator answered with a status and a message, or threw (an
      HTTP or network failure) with a message. */
  datatype SaveOutcome = Responded(status: string, message: string) | Threw(message: string)

  const SuccessStatus := "success"
}
