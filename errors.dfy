/** The validation errors the settlement service answers with (each is an
    HTTP 400 response in the service; status codes and messages are not
    modelled). */
module Errors {

  datatype Error =
    | NegativeDuration        // an ACTIVE segment ends before it starts
    | PeriodEndBeforeStart    // the resolved period ends before it starts
    | InvalidStatusFilter     // a list filter other than REMITTED or UNREMITTED
}
