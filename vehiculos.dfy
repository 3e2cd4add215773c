/**
 * The vehicles and reports of `practica01.py`: each vehicle's `descripcion` text, the three
 * report generators, and `GeneradorDeInformes`, which hands a vehicle to the generator it
 * was built with. A generator's output is the sequence of strings it passes to `print`.
 * Numeric fields are Python integers, printed with `str`.
 */
module Vehicles {
  import opened Wrappers
  import opened Numerals
  import opened Text

  datatype Vehicle =
    | Car(model: string, maker: string, passengers: int)
    | Truck(model: string, maker: string, maxWeight: int, cargo: string)
    | Motorcycle(model: string, maker: string, consumption: int)

  /** The title line under the leading empty line. */
  function Title(v: Vehicle): string {
    match v
    case Car(_, _, _) => "----- AUTO -----"
    case Truck(_, _, _, _) => "----- CAMIÓN -----"
    case Motorcycle(_, _, _) => "----- MOTOCICLETA -----"
  }

  /** The closing line of dashes. */
  function Rule(v: Vehicle): string {
    match v
    case Car(_, _, _) => "----------------"
    case Truck(_, _, _, _) => "------------------"
    case Motorcycle(_, _, _) => "------------------------"
  }

  /** The lines only this kind of vehicle shows, after the Modelo line. */
  function OwnLines(v: Vehicle): seq<string> {
    match v
    case Car(_, _, passengers) => ["Cantidad de Pasajeros: " + IntToString(passengers)]
    case Truck(_, _, maxWeight, cargo) =>
      ["Peso Máximo: " + IntToString(maxWeight) + " kg", "Tipo de Carga: " + cargo]
    case Motorcycle(_, _, consumption) => ["Consumo: " + IntToString(consumption) + " km/l"]
  }

  /**
   * The lines of a description, in order: an empty line (the header starts with "\n"),
   * the title, the Fabricante and Modelo lines, the vehicle's own lines, the dashes.
   */
  function Lines(v: Vehicle): seq<string> {
    ["", Title(v), "Fabricante: " + v.maker, "Modelo: " + v.model] + OwnLines(v) + [Rule(v)]
  }

  /**
   * `descripcion`: every `texto +=` appends one line ended by "\n", so the text is the
   * lines joined, each followed by "\n".
   */
  function Description(v: Vehicle): string {
    Joined(Lines(v))
  }

  /** The text fields hold no line break. */
  predicate OneLineFields(v: Vehicle) {
    NoNewline(v.model) && NoNewline(v.maker) && (v.Truck? ==> NoNewline(v.cargo))
  }

  /** `str` of an integer is one line. */
  lemma NumberIsOneLine(i: int)
    ensures NoNewline(IntToString(i))
  {
    var s := IntToString(i);
    if i < 0 {
      assert forall k :: 1 <= k < |s| ==> s[k] == NatToString(-i)[k - 1];
    }
  }

  /** Joining one-line pieces with a text that has no break keeps them one line. */
  lemma ConcatOneLine(a: string, b: string)
    requires NoNewline(a) && NoNewline(b)
    ensures NoNewline(a + b)
  {
  }

  /** Every line of `ls` is free of line breaks. */
  predicate AllOneLine(ls: seq<string>) {
    forall i :: 0 <= i < |ls| ==> NoNewline(ls[i])
  }

  lemma AllOneLineConcat(a: seq<string>, b: seq<string>)
    requires AllOneLine(a) && AllOneLine(b)
    ensures AllOneLine(a + b)
  {
    forall i | 0 <= i < |a + b|
      ensures NoNewline((a + b)[i])
    {
      if i >= |a| {
        assert (a + b)[i] == b[i - |a|];
      }
    }
  }

  /** The title and the closing dashes hold no line break. */
  lemma FixedLinesOneLine(v: Vehicle)
    ensures NoNewline(Title(v)) && NoNewline(Rule(v))
  {
  }

  /** The lines only this kind of vehicle shows hold no line break. */
  lemma OwnLinesOneLine(v: Vehicle)
    requires OneLineFields(v)
    ensures AllOneLine(OwnLines(v))
  {
    match v {
      case Car(_, _, p) =>
        NumberIsOneLine(p);
        ConcatOneLine("Cantidad de Pasajeros: ", IntToString(p));
      case Truck(_, _, w, c) =>
        NumberIsOneLine(w);
        ConcatOneLine("Peso Máximo: ", IntToString(w));
        ConcatOneLine("Peso Máximo: " + IntToString(w), " kg");
        ConcatOneLine("Tipo de Carga: ", c);
      case Motorcycle(_, _, c) =>
        NumberIsOneLine(c);
        ConcatOneLine("Consumo: ", IntToString(c));
        ConcatOneLine("Consumo: " + IntToString(c), " km/l");
    }
  }

  /**
   * A description shows exactly its lines, in order: the header, the Fabricante and Modelo
   * lines, the vehicle's own lines, and the closing dashes.
   */
  lemma DescriptionLines(v: Vehicle)
    requires OneLineFields(v)
    ensures SplitLines(Description(v)) == Lines(v)
  {
    OwnLinesOneLine(v);
    FixedLinesOneLine(v);
    ConcatOneLine("Fabricante: ", v.maker);
    ConcatOneLine("Modelo: ", v.model);
    var head := ["", Title(v), "Fabricante: " + v.maker, "Modelo: " + v.model];
    assert AllOneLine(head);
    AllOneLineConcat(head, OwnLines(v));
    AllOneLineConcat(head + OwnLines(v), [Rule(v)]);
    SplitJoinedLines(Lines(v));
  }

  /** The maker, the model and the number can be read back from their lines. */
  lemma FieldsReadBack(v: Vehicle)
    ensures Lines(v)[2][|"Fabricante: "|..] == v.maker
    ensures Lines(v)[3][|"Modelo: "|..] == v.model
    ensures v.Car? ==> ParseInt(Lines(v)[4][|"Cantidad de Pasajeros: "|..]) == Some(v.passengers)
    ensures v.Truck? ==> ParseInt(Lines(v)[4][|"Peso Máximo: "|..|Lines(v)[4]| - 3]) == Some(v.maxWeight)
    ensures v.Truck? ==> Lines(v)[5][|"Tipo de Carga: "|..] == v.cargo
    ensures v.Motorcycle? ==> ParseInt(Lines(v)[4][|"Consumo: "|..|Lines(v)[4]| - 5]) == Some(v.consumption)
  {
    match v
    case Car(_, _, p) =>
      assert Lines(v)[4][|"Cantidad de Pasajeros: "|..] == IntToString(p);
      IntToStringRoundTrip(p);
    case Truck(_, _, w, _) =>
      assert Lines(v)[4][|"Peso Máximo: "|..|Lines(v)[4]| - 3] == IntToString(w);
      IntToStringRoundTrip(w);
    case Motorcycle(_, _, c) =>
      assert Lines(v)[4][|"Consumo: "|..|Lines(v)[4]| - 5] == IntToString(c);
      IntToStringRoundTrip(c);
  }

  // ---------------------------------------------------------------- reports

  /** `ReporteConsola`, `ReporteTexto` and `ReportePDF`. */
  datatype Generator = ConsoleReport | TextReport | PdfReport

  /** The name a generator's opening banner shows. */
  function ReportName(g: Generator): string {
    match g
    case ConsoleReport => "REPORTE EN CONSOLA"
    case TextReport => "REPORTE EN ARCHIVO DE TEXTO (SIMULADO)"
    case PdfReport => "REPORTE EN PDF (SIMULADO)"
  }

  /** What a generator prints before the description. */
  function Opening(g: Generator): string {
    "\n=== " + ReportName(g) + " ==="
  }

  /** What a generator prints after the description. */
  function Closing(g: Generator): string {
    match g
    case ConsoleReport => "===========================\n"
    case TextReport => "==== FIN DEL ARCHIVO SIMULADO ====\n"
    case PdfReport => "==== FIN DEL PDF SIMULADO ====\n"
  }

  /** `generar`: the strings printed, in order. */
  function Generate(g: Generator, v: Vehicle): seq<string> {
    [Opening(g), Description(v), Closing(g)]
  }

  /** `GeneradorDeInformes`, holding the injected generator. */
  datatype ReportService = ReportService(generator: Generator)

  /** `procesar_reporte`: one call of the injected generator on the vehicle. */
  function ProcessReport(service: ReportService, v: Vehicle): (out: seq<string>) {
    Generate(service.generator, v)
  }

  /** Number of times `x` occurs in `s`. */
  function Count(s: seq<string>, x: string): nat {
    multiset(s)[x]
  }

  /** A description starts with a line break and then a dash. */
  lemma DescriptionStart(v: Vehicle)
    ensures |Description(v)| >= 2 && Description(v)[0] == '\n' && Description(v)[1] == '-'
  {
    var ls := Lines(v);
    assert Joined(ls) == "" + "\n" + Joined(ls[1..]);
    assert Joined(ls[1..]) == Title(v) + "\n" + Joined(ls[2..]);
  }

  /** Every opening starts with a line break and then "=", every closing with "=". */
  lemma BannerShape(g: Generator)
    ensures |Opening(g)| >= 2 && Opening(g)[0] == '\n' && Opening(g)[1] == '='
    ensures |Closing(g)| >= 1 && Closing(g)[0] == '='
  {
    match g
    case ConsoleReport =>
    case TextReport =>
    case PdfReport =>
  }

  /** No banner of a generator reads as a vehicle's description. */
  lemma BannersAreNotDescriptions(g: Generator, w: Vehicle)
    ensures Opening(g) != Description(w) && Closing(g) != Description(w)
  {
    DescriptionStart(w);
    BannerShape(g);
    NotEqualAt(Opening(g), Description(w), 1);
    NotEqualAt(Closing(g), Description(w), 0);
  }

  /** Two strings that differ at some index are different. */
  lemma NotEqualAt(a: string, b: string, k: nat)
    requires k < |a| && k < |b| && a[k] != b[k]
    ensures a != b
  {
  }

  /** In three printed strings where only the middle one is `d`, `d` is printed once. */
  lemma CountInFrame(o: string, d: string, c: string, e: string)
    requires o != d && c != d && o != e && c != e
    ensures Count([o, d, c], d) == 1
    ensures Count([o, d, c], e) == (if e == d then 1 else 0)
  {
    assert multiset([o, d, c]) == multiset{o} + multiset{d} + multiset{c};
  }

  /**
   * Processing a report prints the service's own generator's output for that vehicle, in
   * which the vehicle's description appears exactly once, framed by that generator's
   * opening and closing, and no other vehicle's description appears unless it reads the same.
   */
  lemma ProcessReportDelegatesOnce(service: ReportService, v: Vehicle, w: Vehicle)
    ensures var out := ProcessReport(service, v);
      out == Generate(service.generator, v)
      && |out| == 3 && out[0] == Opening(service.generator) && out[2] == Closing(service.generator)
      && Count(out, Description(v)) == 1
      && Count(out, Description(w)) == (if Description(w) == Description(v) then 1 else 0)
  {
    var g := service.generator;
    BannersAreNotDescriptions(g, v);
    BannersAreNotDescriptions(g, w);
    CountInFrame(Opening(g), Description(v), Closing(g), Description(w));
  }

  /** Vehicles of different kinds get different header lines. */
  lemma HeadersTellKindsApart(v: Vehicle, w: Vehicle)
    requires OneLineFields(v) && OneLineFields(w)
    requires v.Car? != w.Car? || v.Truck? != w.Truck?
    ensures Description(v) != Description(w)
  {
    DescriptionLines(v);
    DescriptionLines(w);
    assert Lines(v)[1] == Title(v) && Lines(w)[1] == Title(w);
    assert |Title(v)| != |Title(w)|;
  }
}
