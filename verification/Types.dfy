/**
 Value types shared by the auction, scheduling and validation layers.
 Prices and benefits are reals: rounding is not modelled.
 */
module Types {

  /**
   Identifiers are plain integers: the constraints exclude nothing. Types of
   their own help the verifier to tell quantified identifiers from numbers.
   */
  type AgentId = x: int | x <= 0 || x >= 0
  type TaskId = x: int | x <= 0 || x >= 0

  /** Bidder recorded for a task nobody has bid on; real agent ids are non-negative. */
  const NO_BIDDER: AgentId := -1

  datatype Option<+T> = None | Some(value: T)

  /** A task's price and the highest bidder that set it. */
  datatype PriceEntry = PriceEntry(price: real, bidder: AgentId)

  const INITIAL_ENTRY := PriceEntry(0.0, NO_BIDDER)

  type Table = map<TaskId, PriceEntry>

  datatype PriceTableMessage = PriceTableMessage(sender: AgentId, entries: Table)

  datatype RawConfig = RoundConfig(epsilon: real, quiescenceRounds: int)

  /** Parameters of one round; constructing one with other values raises. */
  type RoundConfig = c: RawConfig | c.epsilon > 0.0 && c.quiescenceRounds >= 1
    witness RoundConfig(1.0, 1)

  /** Coordinates; none if the place does not matter. */
  type Position = seq<real>

  /** A unit of work, at a place or anywhere; what it needs beyond robots only feeds the benefits. */
  datatype Task = Task(id: TaskId, position: Position, duration: real, prerequisites: set<TaskId>, requiredRobots: int)
  {
    predicate Collaborative() {
      requiredRobots > 1
    }
  }

  ghost predicate NoDuplicates<T>(s: seq<T>) {
    forall i, j | 0 <= i < j < |s| :: s[i] != s[j]
  }

  ghost function Elements<T>(s: seq<T>): set<T> {
    set x | x in s
  }

  /** An agent's benefits: its tasks in dictionary order, and the benefit of each. */
  datatype Row = Row(order: seq<TaskId>, benefit: TaskId -> real)

  /** The row is a non-empty dictionary with exactly these keys. */
  ghost predicate Over(row: Row, tasks: set<TaskId>) {
    && |row.order| > 0
    && NoDuplicates(row.order)
    && (forall t | t in row.order :: t in tasks)
    && (forall t | t in tasks :: t in row.order)
  }
}
