// The canonical patch that projects, presets and banks store; its contents are not
// looked at here.
module StateRoots {
  datatype StateRoot = StateRoot(values: seq<int>)
}
