// The small call-log text helpers: `formatDuration` (the same code in
// CallLogHelper, CallLogUtil and the app's CallUtil) and the carrier and
// region labels put on a number. Kotlin `Long` division and remainder
// truncate toward zero, so they are written out here.
module CallText {
  import opened Wrappers
  import opened Text

  /** Kotlin `a / b` for a positive divisor: truncated toward zero. */
  function Quot(a: int, b: int): (q: int)
    requires b > 0
    ensures a >= 0 ==> q == a / b
    ensures a < 0 ==> q == -((-a) / b)
  {
    if a >= 0 then a / b else -((-a) / b)
  }

  /** Kotlin `a % b` for a positive divisor: it takes the sign of `a`. */
  function Rem(a: int, b: int): (r: int)
    requires b > 0
    ensures a == b * Quot(a, b) + r
    ensures a >= 0 ==> 0 <= r < b
    ensures a < 0 ==> -b < r <= 0
  {
    a - b * Quot(a, b)
  }

  datatype TimeUnit = Hours | Minutes | Seconds

  /** One appended segment: a number and its unit. */
  datatype Piece = Piece(value: int, unit: TimeUnit)

  function UnitText(u: TimeUnit): string
  {
    match u
    case Hours => "小时"
    case Minutes => "分"
    case Seconds => "秒"
  }

  /** The segments `formatDuration(time)` appends: hours when the whole hours
    * are positive, minutes when the whole minutes are positive (the total
    * minutes, not reduced modulo 60), and always the seconds. */
  function Pieces(time: int): seq<Piece>
  {
    var h := Quot(Quot(time, 60), 60);
    var m := Quot(time, 60);
    (if h > 0 then [Piece(h, Hours)] else [])
      + (if m > 0 then [Piece(m, Minutes)] else [])
      + [Piece(Rem(time, 60), Seconds)]
  }

  /** The segments written out, each number followed by its unit. */
  function Render(ps: seq<Piece>): string
  {
    if ps == [] then "" else IntToDecimal(ps[0].value) + UnitText(ps[0].unit) + Render(ps[1..])
  }

  function DurationText(time: int): string
  {
    Render(Pieces(time))
  }

  /** `formatDuration`, appending to a buffer as the three copies do. */
  method FormatDuration(time: int) returns (r: string)
    ensures r == DurationText(time)
  {
    var s := Rem(time, 60);
    var m := Quot(time, 60);
    var h := Quot(Quot(time, 60), 60);
    var sb := "";
    ghost var ps: seq<Piece> := [];
    if h > 0 {
      RenderSnoc(ps, Piece(h, Hours));
      sb := sb + IntToDecimal(h) + "小时";
      ps := ps + [Piece(h, Hours)];
    }
    if m > 0 {
      RenderSnoc(ps, Piece(m, Minutes));
      sb := sb + IntToDecimal(m) + "分";
      ps := ps + [Piece(m, Minutes)];
    }
    assert sb == Render(ps);
    RenderSnoc(ps, Piece(s, Seconds));
    sb := sb + IntToDecimal(s) + "秒";
    ps := ps + [Piece(s, Seconds)];
    assert ps == Pieces(time);
    r := sb;
  }

  lemma {:induction false} RenderSnoc(ps: seq<Piece>, p: Piece)
    ensures Render(ps + [p]) == Render(ps) + IntToDecimal(p.value) + UnitText(p.unit)
  {
    if ps == [] {
      assert Render([p][1..]) == "";
    } else {
      assert (ps + [p])[1..] == ps[1..] + [p];
      RenderSnoc(ps[1..], p);
    }
  }

  /** The seconds a list of segments stands for. The minutes segment holds
    * every whole minute, so an hours segment adds nothing further. */
  function Denoted(ps: seq<Piece>): int
  {
    if ps == [] then 0
    else
      (match ps[0].unit case Hours => 0 case Minutes => 60 * ps[0].value case Seconds => ps[0].value)
        + Denoted(ps[1..])
  }

  /** The segments of a duration of zero or more seconds give it back, and
    * they are in order: hours (when at least an hour), minutes (when at
    * least a minute), then the seconds below a minute. */
  lemma PiecesDenote(time: nat)
    ensures Denoted(Pieces(time)) == time
    ensures var ps := Pieces(time);
      && ps[|ps| - 1] == Piece(time % 60, Seconds)
      && (time >= 3600 <==> Piece(time / 3600, Hours) in ps)
      && (time >= 60 <==> Piece(time / 60, Minutes) in ps)
      && |ps| == 1 + (if time >= 3600 then 1 else 0) + (if time >= 60 then 1 else 0)
  {
    var m, s := time / 60, time % 60;
    var h := m / 60;
    assert Quot(time, 60) == m && Rem(time, 60) == s && Quot(m, 60) == h;
    assert time == 60 * m + s;
    assert h == time / 3600;
    var ps := Pieces(time);
    var sec := [Piece(s, Seconds)];
    assert Denoted(sec) == s by { assert sec[1..] == []; }
    if m > 0 {
      var min := [Piece(m, Minutes)] + sec;
      assert min[1..] == sec;
      if h > 0 {
        assert ps == [Piece(h, Hours)] + min;
        assert ps[1..] == min;
      } else {
        assert ps == [] + min;
      }
    } else {
      assert ps == [] + [] + sec;
    }
  }

  /** Below a minute only the seconds segment is written. */
  lemma UnderAMinute(time: int)
    requires 0 <= time < 60
    ensures DurationText(time) == IntToDecimal(time) + "秒"
  {
    var p := Piece(time, Seconds);
    assert Pieces(time) == [p] == [] + [p];
    RenderSnoc([], p);
  }

  /** The minutes are not reduced modulo 60: an hour, a minute and a second
    * read "1小时61分1秒". */
  lemma HourMinuteSecond()
    ensures DurationText(3661) == "1小时61分1秒"
  {
    var ps := Pieces(3661);
    assert ps == [Piece(1, Hours), Piece(61, Minutes), Piece(1, Seconds)];
    assert NatToDecimal(61) == NatToDecimal(6) + [DigitChar(1)] == "61";
    assert ps[1..][1..][1..] == [];
  }

  /** A negative duration keeps only its (negative) remainder of seconds. */
  lemma NegativeDuration(time: int)
    requires time < 0
    ensures Pieces(time) == [Piece(Rem(time, 60), Seconds)]
  {
    assert Quot(time, 60) <= 0;
    assert Quot(Quot(time, 60), 60) <= 0;
  }

  /** Kotlin's `Char.isWhitespace`, which `isBlank` applies to every
    * character: the controls U+0009 to U+000D and U+001C to U+001F, and the
    * space, line and paragraph separators of Unicode (categories Zs, Zl, Zp). */
  predicate IsSpace(c: char)
  {
    || '\U{0009}' <= c <= '\U{000D}' || '\U{001C}' <= c <= '\U{001F}'
    || c == ' ' || c == '\U{00A0}' || c == '\U{1680}' || '\U{2000}' <= c <= '\U{200A}'
    || c == '\U{2028}' || c == '\U{2029}' || c == '\U{202F}' || c == '\U{205F}' || c == '\U{3000}'
  }

  predicate IsBlank(s: string) { forall i :: 0 <= i < |s| ==> IsSpace(s[i]) }

  /** `carrierMap[carrierEn] ?: fallback`: the English carrier name the number
    * library reports, turned into its short Chinese name. */
  function CarrierLabel(carrierEn: string, fallback: string): (r: string)
    ensures carrierEn == "China Mobile" ==> r == "移动"
    ensures carrierEn == "China Unicom" ==> r == "联通"
    ensures carrierEn == "China Telecom" ==> r == "电信"
    ensures carrierEn !in {"China Mobile", "China Unicom", "China Telecom"} ==> r == fallback
  {
    var carrierMap := map["China Mobile" := "移动", "China Unicom" := "联通", "China Telecom" := "电信"];
    if carrierEn in carrierMap then carrierMap[carrierEn] else fallback
  }

  /** `description.ifBlank { fallback }`. */
  function RegionLabel(description: string, fallback: string): (r: string)
    ensures IsBlank(description) ==> r == fallback
    ensures !IsBlank(description) ==> r == description
  {
    if IsBlank(description) then fallback else description
  }
}
