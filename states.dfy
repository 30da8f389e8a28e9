/** The per-user conversation states (the `States` constants of handlers.py). */
module States {
  datatype UserState = Idle | WaitingForFile | ExtractingQuizzes | CollectingForwardedQuizzes
}
