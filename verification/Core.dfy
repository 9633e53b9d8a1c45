/** The connection record that the router's containers share (src/conn.h). Each
    container touches only its own fields. */
module Core {
  class Conn {
    var id: nat          // self.id, assigned by the connection map
    var next: Conn?      // link of the send queue
    var insend: bool     // whether the send queue holds this connection

    constructor ()
      ensures id == 0 && next == null && !insend
    {
      id, next, insend := 0, null, false;
    }
  }
}
