/** What a run can observe or depend on outside the translated function. */
module Events {
  type Globals = map<string, int>

  datatype Event =
    | Printed(text: string, args: seq<int>)
    | Called(func: string, args: seq<int>)
    | Scanned(value: int)

  /** The rest of the world: what a call returns and does to the globals, and what scan reads,
      given everything observable so far. */
  datatype World = World(
    call: (string, seq<int>, seq<Event>, Globals) -> (int, Globals),
    input: seq<Event> -> int)
}
