/** White-space separated lists, the form in which scopes and acr_values travel. */
module Words {

  predicate IsSpace(c: char) {
    var n := c as int;
    9 <= n <= 13 || n == 32 || n == 0x85 || n == 0xA0 || n == 0x1680 || 0x2000 <= n <= 0x200A ||
    n == 0x2028 || n == 0x2029 || n == 0x202F || n == 0x205F || n == 0x3000
  }

  predicate IsWord(w: string) {
    w != "" && forall i :: 0 <= i < |w| ==> !IsSpace(w[i])
  }

  predicate AllWords(ws: seq<string>) {
    forall i :: 0 <= i < |ws| ==> IsWord(ws[i])
  }

  /** The maximal runs of non-space characters, in order. */
  function Fields(s: string): seq<string> {
    FieldsFrom(s, "")
  }

  function FieldsFrom(s: string, word: string): seq<string>
    decreases |s|
  {
    if s == "" then if word == "" then [] else [word]
    else if !IsSpace(s[0]) then FieldsFrom(s[1..], word + [s[0]])
    else if word == "" then FieldsFrom(s[1..], "")
    else [word] + FieldsFrom(s[1..], "")
  }

  function Join(ws: seq<string>): string {
    if ws == [] then "" else if |ws| == 1 then ws[0] else ws[0] + " " + Join(ws[1..])
  }

  lemma {:induction false} FieldsFromAreWords(s: string, word: string)
    requires word == "" || IsWord(word)
    ensures AllWords(FieldsFrom(s, word))
    decreases |s|
  {
    if s != "" {
      if IsSpace(s[0]) {
        FieldsFromAreWords(s[1..], "");
      } else {
        FieldsFromAreWords(s[1..], word + [s[0]]);
      }
    }
  }

  lemma {:induction false} FieldsReadWord(w: string, rest: string, word: string)
    requires forall i :: 0 <= i < |w| ==> !IsSpace(w[i])
    ensures FieldsFrom(w + rest, word) == FieldsFrom(rest, word + w)
    decreases |w|
  {
    if w == "" {
      assert w + rest == rest && word + w == word;
    } else {
      assert (w + rest)[0] == w[0] && (w + rest)[1..] == w[1..] + rest;
      assert word + [w[0]] + w[1..] == word + w;
      FieldsReadWord(w[1..], rest, word + [w[0]]);
    }
  }

  /** Joining words and splitting them again gives them back. */
  lemma {:induction false} FieldsOfJoin(ws: seq<string>)
    requires AllWords(ws)
    ensures Fields(Join(ws)) == ws
    decreases |ws|
  {
    if ws == [] {
    } else if |ws| == 1 {
      assert ws[0] + "" == ws[0] && "" + ws[0] == ws[0];
      FieldsReadWord(ws[0], "", "");
      assert ws == [ws[0]];
    } else {
      var rest := " " + Join(ws[1..]);
      assert Join(ws) == ws[0] + rest;
      FieldsReadWord(ws[0], rest, "");
      assert "" + ws[0] == ws[0];
      assert rest[1..] == Join(ws[1..]);
      FieldsOfJoin(ws[1..]);
      assert ws == [ws[0]] + ws[1..];
    }
  }
}
