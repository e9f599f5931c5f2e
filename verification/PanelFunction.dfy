/** The four panel entries of a Brother scanner, and the names the two Brother modules share. */
module PanelFunction {
  /** Scanner ids, in the order the maps keep them. */
  type Scanner = nat
  type Address = nat

  datatype Function = File | Image | Ocr | Email {
    function ButtonIndex(): nat {
      match this case File => 0 case Image => 1 case Ocr => 2 case Email => 3
    }
  }
}
