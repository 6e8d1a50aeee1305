/** A stored chat message as the memory bank, the summarizer and the chat
    step see it (`{ role:, content: }`), and the transcript line both
    transcript builders write for it. */
module Turns {
  import Text

  datatype Turn = Turn(role: string, content: string)

  /** `"User"` for the role `user`, `"Assistant"` for every other role. */
  function Label(role: string): (r: string)
    ensures r == "User" <==> role == "user"
    ensures r == "User" || r == "Assistant"
  {
    if role == "user" then "User" else "Assistant"
  }

  /** `"#{label}: #{content}"`. */
  function Line(role: string, content: string): (r: string)
    ensures Text.StartsWith(r, Label(role) + ": ")
    ensures r[|Label(role)| + 2..] == content
  {
    Label(role) + ": " + content
  }

  /** The messages with the role `user`, in order. */
  function UserTurns(ts: seq<Turn>): (r: seq<Turn>)
    ensures forall i | 0 <= i < |r| :: r[i].role == "user"
    ensures |r| == 0 <==> forall i | 0 <= i < |ts| :: ts[i].role != "user"
    ensures |r| > 0 ==> exists i | 0 <= i < |ts| :: ts[i] == r[|r| - 1] &&
                          forall j | i < j < |ts| :: ts[j].role != "user"
    decreases |ts|
  {
    if |ts| == 0 then []
    else
      var init := ts[..|ts| - 1];
      var rest := UserTurns(init);
      assert forall i | 0 <= i < |init| :: init[i] == ts[i];
      if ts[|ts| - 1].role == "user" then
        var r := rest + [ts[|ts| - 1]];
        assert r[|r| - 1] == ts[|ts| - 1];
        r
      else rest
  }
}
