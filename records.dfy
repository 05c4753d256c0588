/** The record read from each manuscript card of the listing page. */
module Records {
  /**
   * `titulo` and `siglo` are the trimmed texts of the card's heading and century label;
   * the three flags say whether the card shows a "Descargar PDF" button, a code input,
   * and a "Ver Documentación" button.
   */
  datatype Manuscrito = Manuscrito(
    titulo: string,
    siglo: string,
    botonBool: bool,
    inputBool: bool,
    verDocBoll: bool)

  function Titulos(ms: seq<Manuscrito>): (r: set<string>)
    ensures forall i :: 0 <= i < |ms| ==> ms[i].titulo in r
    ensures forall t :: t in r ==> exists i :: 0 <= i < |ms| && ms[i].titulo == t
  {
    set i | 0 <= i < |ms| :: ms[i].titulo
  }
}
