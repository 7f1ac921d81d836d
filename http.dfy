/** The outcome of one `fetch` call, as the services look at it. */
module Http {

  /** `Threw`: the promise rejected (transport failure or unreadable body);
      `NotOk`: a response whose `ok` flag is false;
      `Okay`: an ok response and the JSON body it carried. */
  datatype Response<+T> = Threw(message: string) | NotOk | Okay(body: T)
}
