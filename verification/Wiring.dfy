/** brain_builder/src/Wiring.hpp: the nodes, pins and links the canvas draws. */
module Wiring {
  datatype Pin = Pin(id: nat, node: string, output: bool, topic: string, caption: string,
                     payload: string, feedback: bool, required: bool, prefix: bool,
                     placeholder: bool, list: bool, polled: bool, plus: bool, param: string)

  datatype NodeKind = Module | Sources | Sinks | Events

  /** setup_ok, and setup_error when it is false. */
  datatype Setup = SetUp | SetupFailed(error: string)

  /** index is a module's place in the array, -1 for the body's three nodes. */
  datatype Node = Node(kind: NodeKind, name: string, typ: string, category: string, index: int, setup: Setup,
                       inputs: seq<Pin>, outputs: seq<Pin>)

  datatype Link = Link(fromPin: nat, toPin: nat, fromNode: string, toNode: string, topic: string, feedback: bool,
                       typeOk: bool)
}
