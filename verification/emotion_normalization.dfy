/** `normalize_emotion` (test_emotion_normalization.py): a classifier score on
    the 0-100 scale becomes a fraction clamped into [0, 1], the range the
    emotion table's CHECK constraint accepts. Python's `float()` of a string is
    a parameter; None and anything unparsable give 0. */
module EmotionNormalization {
  import opened Wrappers

  /** The values the function is called with: None, a number, or a string. */
  datatype Score = Null | Num(value: real) | Str(text: string)

  /** `max(0.0, min(1.0, x))`. */
  function Clamp01(x: real): (r: real)
    ensures 0.0 <= r <= 1.0
    ensures 0.0 <= x <= 1.0 ==> r == x
    ensures x > 1.0 ==> r == 1.0
    ensures x < 0.0 ==> r == 0.0
  {
    if x > 1.0 then 1.0 else if x < 0.0 then 0.0 else x
  }

  /** `normalize_emotion`: `parseFloat` is `float()` on a string, None where it raises. */
  function NormalizeEmotion(v: Score, parseFloat: string -> Option<real>): (r: real)
    ensures 0.0 <= r <= 1.0
    ensures v.Null? ==> r == 0.0
    ensures v.Str? && parseFloat(v.text).None? ==> r == 0.0
  {
    match v
    case Null => 0.0
    case Num(x) => Clamp01(x / 100.0)
    case Str(s) =>
      match parseFloat(s)
      case None => 0.0
      case Some(x) => Clamp01(x / 100.0)
  }

  /** A score on the 0-100 scale is divided by 100 and nothing else happens to it. */
  lemma InRangeIsFraction(x: real, parseFloat: string -> Option<real>)
    requires 0.0 <= x <= 100.0
    ensures NormalizeEmotion(Num(x), parseFloat) == x / 100.0
  {
  }

  /** Above 100 saturates to 1; below 0 gives 0. */
  lemma OutOfRangeSaturates(x: real, parseFloat: string -> Option<real>)
    ensures x >= 100.0 ==> NormalizeEmotion(Num(x), parseFloat) == 1.0
    ensures x <= 0.0 ==> NormalizeEmotion(Num(x), parseFloat) == 0.0
  {
  }

  /** A larger score never normalizes to a smaller value. */
  lemma Monotone(x: real, y: real, parseFloat: string -> Option<real>)
    requires x <= y
    ensures NormalizeEmotion(Num(x), parseFloat) <= NormalizeEmotion(Num(y), parseFloat)
  {
  }

  /** A string is normalized as the number it parses to. */
  lemma StringAsNumber(s: string, x: real, parseFloat: string -> Option<real>)
    requires parseFloat(s) == Some(x)
    ensures NormalizeEmotion(Str(s), parseFloat) == NormalizeEmotion(Num(x), parseFloat)
  {
  }

  /** The ten cases of `test_normalization`, with "50" parsing to 50 and "invalid"
      not parsing. Over reals the expected values hold exactly, not only within 0.001;
      float rounding is not modelled. */
  lemma TestTable(parseFloat: string -> Option<real>)
    requires parseFloat("50") == Some(50.0) && parseFloat("invalid") == None
    ensures NormalizeEmotion(Num(0.0), parseFloat) == 0.0
    ensures NormalizeEmotion(Num(50.0), parseFloat) == 0.5
    ensures NormalizeEmotion(Num(100.0), parseFloat) == 1.0
    ensures NormalizeEmotion(Num(150.0), parseFloat) == 1.0
    ensures NormalizeEmotion(Num(-10.0), parseFloat) == 0.0
    ensures NormalizeEmotion(Null, parseFloat) == 0.0
    ensures NormalizeEmotion(Str("50"), parseFloat) == 0.5
    ensures NormalizeEmotion(Str("invalid"), parseFloat) == 0.0
    ensures NormalizeEmotion(Num(99.9), parseFloat) == 0.999
  {
  }
}
