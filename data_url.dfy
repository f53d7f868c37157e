/** The text handling of `base64_to_cv2` (backend/main.py:74-80): a data URL
    such as `data:image/jpeg;base64,<payload>` is cut at its commas and the
    second field is decoded; a string without a comma is decoded whole. */
module DataUrl {

  const Comma: char := ','

  /** Python's `s.split(sep)` with a one-character separator: the fields
      between separators, empty ones included. */
  function Split(s: string, sep: char): (parts: seq<string>)
    ensures |parts| >= 1
    ensures |parts| == 1 <==> sep !in s
    decreases |s|
  {
    if s == [] then [""]
    else
      var rest := Split(s[1..], sep);
      assert sep in s <==> s[0] == sep || sep in s[1..];
      if s[0] == sep then [""] + rest
      else [[s[0]] + rest[0]] + rest[1..]
  }

  /** `sep.join(parts)`. */
  function Join(parts: seq<string>, sep: char): string
    requires |parts| >= 1
    decreases |parts|
  {
    if |parts| == 1 then parts[0] else parts[0] + [sep] + Join(parts[1..], sep)
  }

  /** Joining the fields gives back the string. */
  lemma {:induction false} JoinSplit(s: string, sep: char)
    ensures Join(Split(s, sep), sep) == s
    decreases |s|
  {
    if s != [] {
      var rest := Split(s[1..], sep);
      JoinSplit(s[1..], sep);
      if s[0] == sep {
        assert Split(s, sep) == [""] + rest;
        assert ([""] + rest)[1..] == rest;
      } else {
        var parts := Split(s, sep);
        assert parts == [[s[0]] + rest[0]] + rest[1..];
        if |rest| > 1 {
          assert parts[1..] == rest[1..];
        }
      }
    }
  }

  /** No field contains the separator. */
  lemma {:induction false} SplitFieldsAvoidSep(s: string, sep: char)
    ensures forall i :: 0 <= i < |Split(s, sep)| ==> sep !in Split(s, sep)[i]
    decreases |s|
  {
    if s != [] {
      SplitFieldsAvoidSep(s[1..], sep);
    }
  }

  /** The longest prefix of `s` without `c`. */
  function Before(s: string, c: char): (p: string)
    ensures |p| <= |s| && p == s[..|p|]
    ensures c !in p
    ensures |p| == |s| || s[|p|] == c
    decreases |s|
  {
    if s == [] || s[0] == c then [] else [s[0]] + Before(s[1..], c)
  }

  /** The first field is the text before the first separator, and the other
      fields are those of the text after it. */
  lemma {:induction false} SplitAtFirst(s: string, sep: char)
    ensures Split(s, sep)[0] == Before(s, sep)
    ensures sep in s ==> Split(s, sep)[1..] == Split(s[|Before(s, sep)| + 1..], sep)
    decreases |s|
  {
    if s != [] && s[0] != sep {
      SplitAtFirst(s[1..], sep);
      assert sep in s ==> sep in s[1..];
    }
  }

  /** The text `base64_to_cv2` hands to the base64 decoder. */
  function Payload(s: string): (p: string)
    ensures Comma !in s ==> p == s
    ensures Comma !in p
  {
    if Comma in s then SplitFieldsAvoidSep(s, Comma); Split(s, Comma)[1] else s
  }

  /** The payload is the whole string when it has no comma, and otherwise
      exactly the text between its first comma and the next comma (or the
      end). */
  lemma PayloadIsSecondField(s: string)
    ensures Comma !in s ==> Payload(s) == s
    ensures Comma in s ==>
      var tail := s[|Before(s, Comma)| + 1..];
      Payload(s) == Before(tail, Comma) && Comma !in Payload(s)
  {
    if Comma in s {
      var tail := s[|Before(s, Comma)| + 1..];
      SplitAtFirst(s, Comma);
      SplitAtFirst(tail, Comma);
      assert Split(s, Comma)[1] == Split(tail, Comma)[0];
    }
  }

  lemma {:induction false} BeforeConcat(a: string, c: char, b: string)
    requires c !in a
    ensures Before(a + [c] + b, c) == a
    decreases |a|
  {
    if a != [] {
      BeforeConcat(a[1..], c, b);
      assert (a + [c] + b)[1..] == a[1..] + [c] + b;
    }
  }

  /** The canvas of the web client encodes a frame as
      `data:<media type>;base64,<payload>`; the base64 alphabet has no comma,
      so the decoder receives exactly the payload. */
  lemma DataUrlPayload(mediaType: string, payload: string)
    requires Comma !in mediaType && Comma !in payload
    ensures Payload("data:" + mediaType + ";base64," + payload) == payload
  {
    var head := "data:" + mediaType + ";base64";
    var s := "data:" + mediaType + ";base64," + payload;
    assert s == head + [Comma] + payload;
    assert Comma !in head;
    BeforeConcat(head, Comma, payload);
    PayloadIsSecondField(s);
    assert s[|head| + 1..] == payload;
    assert Before(payload, Comma) == payload;
  }
}
