/** The user-interface component, reduced to the messages it has been asked to show. */
module Components {

  class Ui {
    /** Every message passed to `printOutput`, oldest first. */
    var log: seq<string>

    constructor ()
      ensures log == []
    {
      log := [];
    }

    /** `printOutput`: the message is shown, that is, appended to the log. */
    method PrintOutput(message: string)
      modifies this
      ensures log == old(log) + [message]
    {
      log := log + [message];
    }
  }
}
