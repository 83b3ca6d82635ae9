/** The message renderer: the subject line built in the handler and
    `buildEmailHtml`. Both insert field values verbatim, with no escaping. */
module Render {
  import opened Wrappers
  import opened JsText
  import opened Payload

  /** The label that opens every subject line. */
  const SubjectLabel: string := "Reservación: "

  /** The subject line: the label, the topic (`Sala` when absent), ` - `, the
      date and the time, the last two empty when absent. */
  function Subject(rec: ReservationRecord): (s: string)
    ensures |s| == |SubjectLabel| + |rec.asunto.GetOr("Sala")| + 3
                   + |rec.fecha.GetOr("")| + 1 + |rec.hora.GetOr("")|
    ensures s[..|SubjectLabel|] == SubjectLabel
    // the topic follows the label, then ` - `, the date, a space, and the time closes the line
    ensures var t := |SubjectLabel| + |rec.asunto.GetOr("Sala")|;
      s[|SubjectLabel|..t] == rec.asunto.GetOr("Sala") && s[t..t + 3] == " - "
    ensures var t := |SubjectLabel| + |rec.asunto.GetOr("Sala")| + 3;
      s[t..t + |rec.fecha.GetOr("")|] == rec.fecha.GetOr("") && s[t + |rec.fecha.GetOr("")|] == ' '
    ensures s[|s| - |rec.hora.GetOr("")|..] == rec.hora.GetOr("")
  {
    SubjectLabel + rec.asunto.GetOr("Sala") + " - " + rec.fecha.GetOr("") + " " + rec.hora.GetOr("")
  }

  /** The subject reads no field but `asunto`, `fecha` and `hora`; an absent topic
      reads as `Sala`, while a present empty one is kept and gives a shorter line. */
  lemma SubjectDefaults(rec: ReservationRecord, other: ReservationRecord)
    requires other.asunto == rec.asunto && other.fecha == rec.fecha && other.hora == rec.hora
    ensures Subject(other) == Subject(rec)
    ensures Subject(rec.(asunto := None)) == Subject(rec.(asunto := Some("Sala")))
    ensures Subject(rec.(asunto := Some(""))) != Subject(rec.(asunto := None))
  {
    assert |Subject(rec.(asunto := Some("")))| + 4 == |Subject(rec.(asunto := None))|;
  }

  /** `<!DOCTYPE html>` up to the opening of the table. */
  const Head: string :=
    "<!DOCTYPE html>" + "\n<html>\n<head><meta charset=\"utf-8\"></head>\n"
    + "<body style=\"font-family: sans-serif; max-width: 560px;\">\n"
    + "  <h2 style=\"color: #2563eb;\">"
    + "Recordatorio de reunión - TACTICAL SUPPORT</h2>\n"
    + "  <p>Se ha programado una reservación de sala.</p>\n"
    + "  <table style=\"border-collapse: collapse;\">"

  /** The opening of one table row, up to where its value goes. */
  function RowStart(caption: string): string {
    "\n    <tr><td style=\"padding: 6px 12px 6px 0; " + "font-weight: bold;\">" + caption + ":</td><td>"
  }

  const RowEnd: string := "</td></tr>"

  /** From the end of the last row to `</html>`. */
  const Tail: string :=
    "\n  </table>\n"
    + "  <p style=\"margin-top: 24px; color: #666; font-size: 14px;\">"
    + "Este correo es un recordatorio automático de la agenda.</p>\n"
    + "</body>\n" + "</html>"

  /** The fixed text between the inserted values: the five rows Fecha, Hora,
      Organizador, Asunto and Participantes, in that order. */
  const Segments: seq<string> := [
    Head + RowStart("Fecha"),
    RowEnd + RowStart("Hora"),
    RowEnd + RowStart("Organizador"),
    RowEnd + RowStart("Asunto"),
    RowEnd + RowStart("Participantes"),
    RowEnd + Tail]

  /** The five values as they are inserted: absent fields become empty, except
      the participants, which become an em dash. */
  function Cells(rec: ReservationRecord): (c: seq<string>)
    ensures |c| == 5
    ensures Defaulted(rec.fecha, "", c[0]) && Defaulted(rec.hora, "", c[1])
    ensures Defaulted(rec.responsable, "", c[2]) && Defaulted(rec.asunto, "", c[3])
    ensures Defaulted(rec.participantes, "—", c[4])
  {
    [rec.fecha.GetOr(""), rec.hora.GetOr(""), rec.responsable.GetOr(""),
     rec.asunto.GetOr(""), rec.participantes.GetOr("—")]
  }

  /** `v` is what `field ?? fallback` gives: the field's own value whenever it is
      present (even when empty), the fallback only when it is absent. */
  predicate Defaulted(field: Option<string>, fallback: string, v: string) {
    (field.Some? ==> v == field.value) && (field.None? ==> v == fallback)
  }

  /** Interleaves the fixed segments with the values: `segs[0] vals[0] segs[1] ...`. */
  function Fill(segs: seq<string>, vals: seq<string>): string
    requires |segs| == |vals| + 1
    decreases |vals|
  {
    if vals == [] then segs[0] else segs[0] + vals[0] + Fill(segs[1..], vals[1..])
  }

  /** A filled template opens with the first segment, closes with the last, and
      is as long as all segments and values together. */
  lemma {:induction false} FillFrame(segs: seq<string>, vals: seq<string>)
    requires |segs| == |vals| + 1
    ensures var r := Fill(segs, vals);
      |r| == TotalLength(segs) + TotalLength(vals)
      && |segs[0]| <= |r| && r[..|segs[0]|] == segs[0]
      && |segs[|segs| - 1]| <= |r| && r[|r| - |segs[|segs| - 1]|..] == segs[|segs| - 1]
    decreases |vals|
  {
    if vals != [] {
      FillFrame(segs[1..], vals[1..]);
      var r, t := Fill(segs, vals), Fill(segs[1..], vals[1..]);
      assert r == segs[0] + (vals[0] + t);
      assert r[|r| - |t|..] == t;
      var last := segs[|segs| - 1];
      assert segs[1..][|segs[1..]| - 1] == last;
      assert r[|r| - |last|..] == t[|t| - |last|..];
    }
  }

  function TotalLength(ss: seq<string>): nat {
    if ss == [] then 0 else |ss[0]| + TotalLength(ss[1..])
  }

  /** Reads the values back out of a filled template, each value taken up to the
      next `<`; `None` when the fixed text does not match. */
  function Extract(segs: seq<string>, s: string): Option<seq<string>>
    requires |segs| >= 1
    decreases |segs|
  {
    if |segs| == 1 then (if s == segs[0] then Some([]) else None)
    else if |s| < |segs[0]| || s[..|segs[0]|] != segs[0] then None
    else
      var rest := s[|segs[0]|..];
      var v := PrefixBefore(rest, '<');
      match Extract(segs[1..], rest[|v|..])
      case None => None
      case Some(vs) => Some([v] + vs)
  }

  /** Every segment after the first opens with markup. */
  predicate MarkupSeparated(segs: seq<string>) {
    forall i :: 1 <= i < |segs| ==> segs[i] != [] && segs[i][0] == '<'
  }

  predicate NoMarkup(vals: seq<string>) {
    forall i :: 0 <= i < |vals| ==> '<' !in vals[i]
  }

  /** Values without markup are read back exactly as they were inserted. */
  lemma {:induction false} ExtractFill(segs: seq<string>, vals: seq<string>)
    requires |segs| == |vals| + 1 && MarkupSeparated(segs) && NoMarkup(vals)
    ensures Extract(segs, Fill(segs, vals)) == Some(vals)
    decreases |vals|
  {
    if vals != [] {
      var rest, tailSegs := vals[1..], segs[1..];
      var tailFill := Fill(tailSegs, rest);
      assert MarkupSeparated(tailSegs) by {
        forall i | 1 <= i < |tailSegs| ensures tailSegs[i] != [] && tailSegs[i][0] == '<' {
          assert tailSegs[i] == segs[i + 1];
        }
      }
      assert NoMarkup(rest) by {
        forall i | 0 <= i < |rest| ensures '<' !in rest[i] {
          assert rest[i] == vals[i + 1];
        }
      }
      ExtractFill(tailSegs, rest);
      assert tailFill != [] && tailFill[0] == '<' by {
        FillFrame(tailSegs, rest);
        assert tailFill[..|tailSegs[0]|] == tailSegs[0];
        assert tailSegs[0] == segs[1];
      }
      ExtractStep(segs[0], vals[0], tailSegs, tailFill);
      assert segs == [segs[0]] + tailSegs;
      assert Fill(segs, vals) == segs[0] + vals[0] + tailFill;
      assert [vals[0]] + rest == vals;
    }
  }

  /** One step of `Extract`: the first segment, then a value up to the next `<`. */
  lemma ExtractStep(seg: string, v: string, tailSegs: seq<string>, tailFill: string)
    requires |tailSegs| >= 1 && '<' !in v && tailFill != [] && tailFill[0] == '<'
    ensures Extract([seg] + tailSegs, seg + v + tailFill) ==
      match Extract(tailSegs, tailFill) case None => None case Some(vs) => Some([v] + vs)
  {
    var segs, s := [seg] + tailSegs, seg + v + tailFill;
    assert s[..|seg|] == seg;
    assert s[|seg|..] == v + tailFill;
    PrefixBeforeConcat(v, '<', tailFill);
    assert (v + tailFill)[|v|..] == tailFill;
    assert segs[1..] == tailSegs;
  }

  /** The document between the white space of the template literal. */
  function Document(rec: ReservationRecord): string {
    Fill(Segments, Cells(rec))
  }

  /** `buildEmailHtml`: the template literal, which opens and closes with a line
      break, then `.trim()`. */
  function BuildEmailHtml(rec: ReservationRecord): string {
    Trim("\n" + Document(rec) + "\n")
  }

  /** The shape of the fixed text: six segments, the first opening and the last
      closing with markup, every one after the first opening with a tag. */
  lemma SegmentsShape()
    ensures |Segments| == 6 && MarkupSeparated(Segments)
    ensures Segments[0] != [] && Segments[0][0] == '<'
    ensures Segments[5] != [] && Segments[5][|Segments[5]| - 1] == '>'
  {
    assert Head[0] == '<';
    assert (Head + RowStart("Fecha"))[0] == Head[0];
    assert RowEnd[0] == '<';
    forall x: string ensures (RowEnd + x)[0] == '<' {
      assert (RowEnd + x)[0] == RowEnd[0];
    }
    assert Tail[|Tail| - 1] == '>';
    assert (RowEnd + Tail)[|RowEnd + Tail| - 1] == Tail[|Tail| - 1];
  }

  /** A six-segment template filled with five values, written out. */
  lemma {:induction false} FillSix(S: seq<string>, c: seq<string>)
    requires |S| == 6 && |c| == 5
    ensures Fill(S, c) == S[0] + c[0] + S[1] + c[1] + S[2] + c[2] + S[3] + c[3] + S[4] + c[4] + S[5]
  {
    var f5 := Fill(S[5..], c[5..]);
    assert f5 == S[5];
    assert S[4..][1..] == S[5..] && c[4..][1..] == c[5..];
    var f4 := Fill(S[4..], c[4..]);
    assert f4 == S[4] + c[4] + f5;
    assert S[3..][1..] == S[4..] && c[3..][1..] == c[4..];
    var f3 := Fill(S[3..], c[3..]);
    assert f3 == S[3] + c[3] + f4;
    assert S[2..][1..] == S[3..] && c[2..][1..] == c[3..];
    var f2 := Fill(S[2..], c[2..]);
    assert f2 == S[2] + c[2] + f3;
    assert S[1..][1..] == S[2..] && c[1..][1..] == c[2..];
    var f1 := Fill(S[1..], c[1..]);
    assert f1 == S[1] + c[1] + f2;
    assert Fill(S, c) == S[0] + c[0] + f1;
  }

  /** The total length of the five inserted values. */
  lemma CellsLength(rec: ReservationRecord)
    ensures TotalLength(Cells(rec)) ==
      |rec.fecha.GetOr("")| + |rec.hora.GetOr("")| + |rec.responsable.GetOr("")|
      + |rec.asunto.GetOr("")| + |rec.participantes.GetOr("—")|
  {
    var c := Cells(rec);
    assert TotalLength(c[4..]) == |c[4]| + TotalLength(c[5..]);
    assert TotalLength(c[3..]) == |c[3]| + TotalLength(c[4..]);
    assert TotalLength(c[2..]) == |c[2]| + TotalLength(c[3..]);
    assert TotalLength(c[1..]) == |c[1]| + TotalLength(c[2..]);
  }

  /** `.trim()` removes only the two line breaks of the template literal: the
      values, even white-space ones, are never trimmed. */
  lemma HtmlIsDocument(rec: ReservationRecord)
    ensures BuildEmailHtml(rec) == Document(rec)
  {
    SegmentsShape();
    FillFrame(Segments, Cells(rec));
    var d, first, last := Document(rec), Segments[0], Segments[5];
    assert d[0] == d[..|first|][0] == first[0];
    assert d[|d| - 1] == d[|d| - |last|..][|last| - 1] == last[|last| - 1];
    TrimSurrounded("\n", d, "\n");
  }

  /** The e-mail body written out: the heading, the five rows with each field's
      value or its default, and the closing paragraph. */
  lemma HtmlWrittenOut(rec: ReservationRecord)
    ensures BuildEmailHtml(rec) ==
      Head + RowStart("Fecha") + rec.fecha.GetOr("")
      + (RowEnd + RowStart("Hora")) + rec.hora.GetOr("")
      + (RowEnd + RowStart("Organizador")) + rec.responsable.GetOr("")
      + (RowEnd + RowStart("Asunto")) + rec.asunto.GetOr("")
      + (RowEnd + RowStart("Participantes")) + rec.participantes.GetOr("—")
      + (RowEnd + Tail)
  {
    HtmlIsDocument(rec);
    FillSix(Segments, Cells(rec));
  }

  /** The e-mail body has exactly the five rows Fecha, Hora, Organizador, Asunto and
      Participantes, in that order, each holding its value verbatim (absent values
      rendered as "", participants as an em dash): reading the rows back gives
      the values, whenever no value itself contains markup. */
  lemma HtmlRoundTrip(rec: ReservationRecord)
    requires NoMarkup(Cells(rec))
    ensures Extract(Segments, BuildEmailHtml(rec)) == Some(Cells(rec))
  {
    HtmlIsDocument(rec);
    SegmentsShape();
    ExtractFill(Segments, Cells(rec));
  }

  /** The body's length is a fixed amount plus the lengths of the five values. */
  lemma HtmlLength(rec: ReservationRecord, other: ReservationRecord)
    ensures |BuildEmailHtml(rec)| - TotalLength(Cells(rec)) == |BuildEmailHtml(other)| - TotalLength(Cells(other))
  {
    HtmlIsDocument(rec);
    HtmlIsDocument(other);
    FillFrame(Segments, Cells(rec));
    FillFrame(Segments, Cells(other));
  }

  /** A present empty `participantes` renders differently from an absent one: the
      em dash is a default for absence only. */
  lemma EmptyParticipantsShown(rec: ReservationRecord)
    ensures BuildEmailHtml(rec.(participantes := Some(""))) != BuildEmailHtml(rec.(participantes := None))
  {
    var withEmpty := rec.(participantes := Some(""));
    var without := rec.(participantes := None);
    HtmlLength(withEmpty, without);
    CellsLength(withEmpty);
    CellsLength(without);
  }

  /** Moving the first separator, with the text around it, from the end of the
      first value to the start of the second leaves a filled template unchanged. */
  lemma ShiftAcrossFirstRow(S: seq<string>, a: string, b: string, c: string, xs: seq<string>)
    requires |S| == 6 && |xs| == 3
    ensures Fill(S, [a + S[1] + b, c] + xs) == Fill(S, [a, b + S[1] + c] + xs)
  {
    var v1, v2 := [a + S[1] + b, c] + xs, [a, b + S[1] + c] + xs;
    assert v1[1..][1..] == xs == v2[1..][1..];
    assert S[1..][1..] == S[2..];
    var f := Fill(S[2..], xs);
    var m := S[1];
    assert Fill(S[1..], v1[1..]) == m + c + f;
    assert Fill(S[1..], v2[1..]) == m + (b + m + c) + f;
    calc {
      Fill(S, v1);
      S[0] + (a + m + b) + (m + c + f);
      { Assoc(S[0], a + m + b, m + c + f); Assoc(a + m, b, m + c + f); Assoc(a, m, b + (m + c + f)); }
      S[0] + (a + (m + (b + (m + c + f))));
      { Assoc(b, m + c, f); Assoc(b, m, c); Assoc(m, b + m + c, f); }
      S[0] + (a + (m + (b + m + c) + f));
      { Assoc(S[0], a, m + (b + m + c) + f); }
      S[0] + a + (m + (b + m + c) + f);
      Fill(S, v2);
    }
  }

  lemma Assoc(x: string, y: string, z: string)
    ensures x + y + z == x + (y + z)
  {
  }

  /** Because values are inserted without escaping, the body does not determine
      the record: text that spells out the markup between the Fecha and Hora rows
      can sit at the end of the date or at the start of the time, and two records
      that differ in both fields render the same body. */
  lemma HtmlShift(rec: ReservationRecord, a: string, b: string, c: string)
    ensures a + Segments[1] + b != a && c != b + Segments[1] + c
    ensures BuildEmailHtml(rec.(fecha := Some(a + Segments[1] + b), hora := Some(c)))
         == BuildEmailHtml(rec.(fecha := Some(a), hora := Some(b + Segments[1] + c)))
  {
    var r1 := rec.(fecha := Some(a + Segments[1] + b), hora := Some(c));
    var r2 := rec.(fecha := Some(a), hora := Some(b + Segments[1] + c));
    var xs := Cells(rec)[2..];
    assert Cells(r1) == [a + Segments[1] + b, c] + xs;
    assert Cells(r2) == [a, b + Segments[1] + c] + xs;
    ShiftAcrossFirstRow(Segments, a, b, c, xs);
    SegmentsShape();
  }
}
