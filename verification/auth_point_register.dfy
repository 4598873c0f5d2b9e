/**
 The collection-point register page under components/auth: the CEP field
 handler, `validateForm`, and the payload posted to the backend with the
 open days encoded as `diasPontoColeta`.
 */
module AuthPointRegister {
  import opened Wrappers
  import opened Text
  import opened Cep
  import opened Schedule

  datatype PointForm = PointForm(
    cep: string, nome: string, logradouro: string, bairro: string,
    cidade: string, estado: string, status: string)

  const CepRequired := "CEP é obrigatório"
  const LogradouroRequired := "Logradouro é obrigatório"
  const BairroRequired := "Bairro é obrigatório"
  const CidadeRequired := "Cidade é obrigatória"
  const EstadoRequired := "Estado é obrigatório"
  const WasteTypesRequired := "Selecione ao menos um tipo de resíduo"
  const OpenDayRequired := "Selecione ao menos um dia de funcionamento"

  /** The form's initial state; `status` "T" marks a temporary point. */
  const InitialForm := PointForm("", "", "", "", "", "", "T")

  /** The first update of `handleCEPChange`: the CEP field holds the masked input. */
  function ChangeCep(form: PointForm, typed: string): (r: PointForm)
    ensures r.cep == FormatCep(typed)
    ensures r.(cep := form.cep) == form
  {
    form.(cep := FormatCep(typed))
  }

  /** The required-field errors of the CEP and the four address fields; `nome` is never checked. */
  function AddressErrors(form: PointForm): (r: map<string, string>)
    ensures r.Keys <= {"cep", "logradouro", "bairro", "cidade", "estado"}
    ensures "cep" in r <==> form.cep == []
    ensures "logradouro" in r <==> form.logradouro == []
    ensures "bairro" in r <==> form.bairro == []
    ensures "cidade" in r <==> form.cidade == []
    ensures "estado" in r <==> form.estado == []
    ensures "cep" in r ==> r["cep"] == CepRequired
    ensures "logradouro" in r ==> r["logradouro"] == LogradouroRequired
    ensures "bairro" in r ==> r["bairro"] == BairroRequired
    ensures "cidade" in r ==> r["cidade"] == CidadeRequired
    ensures "estado" in r ==> r["estado"] == EstadoRequired
  {
    var e1: map<string, string> := if form.cep == [] then map["cep" := CepRequired] else map[];
    var e2 := if form.logradouro == [] then e1["logradouro" := LogradouroRequired] else e1;
    var e3 := if form.bairro == [] then e2["bairro" := BairroRequired] else e2;
    var e4 := if form.cidade == [] then e3["cidade" := CidadeRequired] else e3;
    if form.estado == [] then e4["estado" := EstadoRequired] else e4
  }

  /** The error map `validateForm` stores. */
  function Errors(form: PointForm, selected: seq<string>, w: Week): (r: map<string, string>)
    ensures r.Keys <= {"cep", "logradouro", "bairro", "cidade", "estado", "wasteTypes", "operatingHours"}
    ensures "cep" in r <==> form.cep == []
    ensures "logradouro" in r <==> form.logradouro == []
    ensures "bairro" in r <==> form.bairro == []
    ensures "cidade" in r <==> form.cidade == []
    ensures "estado" in r <==> form.estado == []
    ensures "wasteTypes" in r <==> selected == []
    ensures "operatingHours" in r <==> forall d :: !Get(w, d).isOpen
    ensures "cep" in r ==> r["cep"] == CepRequired
    ensures "logradouro" in r ==> r["logradouro"] == LogradouroRequired
    ensures "bairro" in r ==> r["bairro"] == BairroRequired
    ensures "cidade" in r ==> r["cidade"] == CidadeRequired
    ensures "estado" in r ==> r["estado"] == EstadoRequired
    ensures "wasteTypes" in r ==> r["wasteTypes"] == WasteTypesRequired
    ensures "operatingHours" in r ==> r["operatingHours"] == OpenDayRequired
  {
    var e5 := AddressErrors(form);
    var e6 := if |selected| == 0 then e5["wasteTypes" := WasteTypesRequired] else e5;
    if !AnyOpen(w) then e6["operatingHours" := OpenDayRequired] else e6
  }

  /** `validateForm`: true exactly when the error map is empty. */
  function ValidateForm(form: PointForm, selected: seq<string>, w: Week): (ok: bool)
    ensures ok <==>
              && form.cep != [] && form.logradouro != [] && form.bairro != []
              && form.cidade != [] && form.estado != []
              && selected != []
              && exists d :: Get(w, d).isOpen
  {
    var errors := Errors(form, selected, w);
    assert form.cep == [] ==> "cep" in errors;
    assert form.logradouro == [] ==> "logradouro" in errors;
    assert form.bairro == [] ==> "bairro" in errors;
    assert form.cidade == [] ==> "cidade" in errors;
    assert form.estado == [] ==> "estado" in errors;
    assert selected == [] ==> "wasteTypes" in errors;
    assert (forall d :: !Get(w, d).isOpen) ==> "operatingHours" in errors;
    |errors| == 0
  }

  /** One element of `diasPontoColeta`. */
  datatype DiaPonto = DiaPonto(dayFlag: string, openHour: string, closeHour: string)

  /** One element of `tipoColeta`. */
  datatype TipoColeta = TipoColeta(tipoDescarte: string)

  /** `HH:MM` to `HHMM`: `time.replace(":", "")`. */
  function CompactTime(t: string): (r: string)
    ensures IsClockTime(t) ==> r == t[..2] + t[3..] && |r| == 4 && AllDigits(r)
  {
    RemoveColonOfClockTime(t);
    RemoveFirst(t, ':')
  }

  lemma RemoveColonOfClockTime(t: string)
    ensures IsClockTime(t) ==> RemoveFirst(t, ':') == t[..2] + t[3..]
  {
    if IsClockTime(t) {
      RemoveFirstAt(t, ':', 2);
    }
  }

  function EncodeDay(d: Day, h: DayHours): DiaPonto {
    DiaPonto(DayCode(d), CompactTime(h.openTime), CompactTime(h.closeTime))
  }

  /** `diasPontoColeta`: the open days, monday first, by day flag and compact times. */
  function EncodeDays(w: Week): (r: seq<DiaPonto>)
    ensures |r| == |OpenDays(w)|
    ensures forall i :: 0 <= i < |r| ==>
              && DayOfCode(r[i].dayFlag) == Some(OpenDays(w)[i])
              && r[i].openHour == CompactTime(Get(w, OpenDays(w)[i]).openTime)
              && r[i].closeHour == CompactTime(Get(w, OpenDays(w)[i]).closeTime)
  {
    var open := OpenDays(w);
    seq(|open|, i requires 0 <= i < |open| =>
      DayTablesInvert(open[i]);
      EncodeDay(open[i], Get(w, open[i])))
  }

  /**
   Every open day is sent exactly once and no closed day is sent; the
   flags come in monday-to-sunday order.
   */
  lemma EncodeDaysSpec(w: Week)
    ensures forall d :: Get(w, d).isOpen <==> exists i :: 0 <= i < |EncodeDays(w)| && EncodeDays(w)[i].dayFlag == DayCode(d)
    ensures forall i, j :: 0 <= i < j < |EncodeDays(w)| ==>
              Rank(DayOfCode(EncodeDays(w)[i].dayFlag).value) < Rank(DayOfCode(EncodeDays(w)[j].dayFlag).value)
  {
    var r := EncodeDays(w);
    forall d ensures Get(w, d).isOpen <==> exists i :: 0 <= i < |r| && r[i].dayFlag == DayCode(d) {
      if Get(w, d).isOpen {
        var i :| 0 <= i < |OpenDays(w)| && OpenDays(w)[i] == d;
        assert r[i].dayFlag == DayCode(d);
      }
      if exists i :: 0 <= i < |r| && r[i].dayFlag == DayCode(d) {
        var i :| 0 <= i < |r| && r[i].dayFlag == DayCode(d);
        DayTablesInvert(d);
        assert OpenDays(w)[i] == d;
        assert d in OpenDays(w);
      }
    }
  }

  /** The fields posted on submission; the geocoded coordinates are not modelled. */
  datatype PointPayload = PointPayload(
    userId: int, cep: string, nome: string, logradouro: string, bairro: string,
    cidade: string, estado: string, status: string,
    tipoColeta: seq<TipoColeta>, diasPontoColeta: seq<DiaPonto>)

  function BuildPayload(userId: int, form: PointForm, selected: seq<string>, w: Week): (r: PointPayload)
    ensures r.userId == userId
    ensures r.cep == form.cep && r.nome == form.nome && r.logradouro == form.logradouro
    ensures r.bairro == form.bairro && r.cidade == form.cidade && r.estado == form.estado
    ensures r.status == form.status
    ensures |r.tipoColeta| == |selected|
    ensures forall i :: 0 <= i < |selected| ==> r.tipoColeta[i].tipoDescarte == selected[i]
    ensures r.diasPontoColeta == EncodeDays(w)
  {
    PointPayload(
      userId, form.cep, form.nome, form.logradouro, form.bairro, form.cidade, form.estado, form.status,
      seq(|selected|, i requires 0 <= i < |selected| => TipoColeta(selected[i])),
      EncodeDays(w))
  }

  /**
   A form that passed validation sends at least one waste type and at least
   one day.
   */
  lemma PayloadOfValidForm(userId: int, form: PointForm, selected: seq<string>, w: Week)
    requires ValidateForm(form, selected, w)
    ensures |BuildPayload(userId, form, selected, w).tipoColeta| > 0
    ensures |BuildPayload(userId, form, selected, w).diasPontoColeta| > 0
  {
  }

  /**
   The page starts with an empty form, which is what masking an empty CEP
   gives, and with every day closed, so nothing can be submitted before the
   user opens a day.
   */
  lemma InitialStateNotSubmittable()
    ensures InitialForm.cep == FormatCep("")
    ensures OpenDays(InitialWeek) == []
    ensures !ValidateForm(InitialForm, [], InitialWeek)
  {
    assert Digits("") == "";
    forall d ensures !Get(InitialWeek, d).isOpen {
    }
  }
}
