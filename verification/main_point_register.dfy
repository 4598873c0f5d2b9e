/**
 The collection-point register page under components/main_pages: its
 `validateForm` adds an eight-digit check on the CEP and an opening-before-
 closing check per open day, and its submission builds three payloads.
 */
module MainPointRegister {
  import opened Wrappers
  import opened Text
  import opened Cep
  import opened Schedule

  datatype PointForm = PointForm(
    cep: string, logradouro: string, bairro: string, cidade: string, estado: string, status: string)

  const CepRequired := "CEP é obrigatório"
  const CepLength := "CEP deve ter 8 dígitos"
  const LogradouroRequired := "Logradouro é obrigatório"
  const BairroRequired := "Bairro é obrigatório"
  const CidadeRequired := "Cidade é obrigatória"
  const EstadoRequired := "Estado é obrigatório"
  const WasteTypesRequired := "Selecione pelo menos um tipo de resíduo"
  const OpenDayRequired := "Selecione pelo menos um dia de funcionamento"
  const TimeOrder := "Horário de abertura deve ser anterior ao fechamento"

  const FieldKeys := {"cep", "logradouro", "bairro", "cidade", "estado", "wasteTypes", "operatingHours"}

  /** The error key of a day's hours, `${dayKey}Time`. */
  function TimeKey(d: Day): string {
    DayKey(d) + "Time"
  }

  /** Each day has its own time key, distinct from every field key. */
  lemma TimeKeysDistinct()
    ensures forall d, e :: TimeKey(d) == TimeKey(e) ==> d == e
    ensures forall d :: TimeKey(d) !in FieldKeys
  {
    forall d, e | TimeKey(d) == TimeKey(e) ensures d == e {
      DayTablesInvert(d);
      DayTablesInvert(e);
      assert |DayKey(d)| == |DayKey(e)|;
      assert DayKey(d) == TimeKey(d)[..|DayKey(d)|];
      assert DayKey(e) == TimeKey(e)[..|DayKey(e)|];
    }
    forall d ensures TimeKey(d) !in FieldKeys {
      var k := TimeKey(d);
      assert k[|k| - 4..] == "Time";
    }
  }

  /**
   `day.isOpen && day.openTime >= day.closeTime`: an open day whose closing
   time is below its opening time or equal to it.
   */
  function BadHours(w: Week, d: Day): (r: bool)
    ensures r <==> Get(w, d).isOpen && (Below(Get(w, d).closeTime, Get(w, d).openTime) || Get(w, d).closeTime == Get(w, d).openTime)
  {
    BelowTrichotomy(Get(w, d).openTime, Get(w, d).closeTime);
    Get(w, d).isOpen && !Below(Get(w, d).openTime, Get(w, d).closeTime)
  }

  /** The `Object.entries(operatingHours).forEach(...)` pass over `days`. */
  function TimeErrors(w: Week, days: seq<Day>, errors: map<string, string>): (r: map<string, string>)
    ensures forall k :: k in r ==> k in errors || exists d :: d in days && k == TimeKey(d)
    ensures forall k :: k in errors ==> k in r
    ensures forall k :: k in errors && (forall d :: d in days ==> k != TimeKey(d)) ==> r[k] == errors[k]
    ensures forall d :: d in days && BadHours(w, d) ==> TimeKey(d) in r && r[TimeKey(d)] == TimeOrder
    ensures forall d :: d in days && !BadHours(w, d) && TimeKey(d) !in errors ==> TimeKey(d) !in r
  {
    TimeKeysDistinct();
    if days == [] then errors
    else
      var d := days[0];
      var next := if BadHours(w, d) then errors[TimeKey(d) := TimeOrder] else errors;
      TimeErrors(w, days[1..], next)
  }

  /** The errors of the CEP and the four address fields. */
  function AddressErrors(form: PointForm): (r: map<string, string>)
    ensures r.Keys <= {"cep", "logradouro", "bairro", "cidade", "estado"}
    ensures "cep" in r <==> |Digits(form.cep)| != CepDigits
    ensures "cep" in r ==> r["cep"] == (if form.cep == [] then CepRequired else CepLength)
    ensures "logradouro" in r <==> form.logradouro == []
    ensures "bairro" in r <==> form.bairro == []
    ensures "cidade" in r <==> form.cidade == []
    ensures "estado" in r <==> form.estado == []
    ensures "logradouro" in r ==> r["logradouro"] == LogradouroRequired
    ensures "bairro" in r ==> r["bairro"] == BairroRequired
    ensures "cidade" in r ==> r["cidade"] == CidadeRequired
    ensures "estado" in r ==> r["estado"] == EstadoRequired
  {
    var e1: map<string, string> :=
      if form.cep == [] then map["cep" := CepRequired]
      else if |Digits(form.cep)| != CepDigits then map["cep" := CepLength]
      else map[];
    var e2 := if form.logradouro == [] then e1["logradouro" := LogradouroRequired] else e1;
    var e3 := if form.bairro == [] then e2["bairro" := BairroRequired] else e2;
    var e4 := if form.cidade == [] then e3["cidade" := CidadeRequired] else e3;
    if form.estado == [] then e4["estado" := EstadoRequired] else e4
  }

  /** The errors of the single fields, before the hours are checked. */
  function FieldErrors(form: PointForm, selected: seq<string>, w: Week): (r: map<string, string>)
    ensures r.Keys <= FieldKeys
    ensures "cep" in r <==> |Digits(form.cep)| != CepDigits
    ensures "cep" in r ==> r["cep"] == (if form.cep == [] then CepRequired else CepLength)
    ensures "logradouro" in r <==> form.logradouro == []
    ensures "bairro" in r <==> form.bairro == []
    ensures "cidade" in r <==> form.cidade == []
    ensures "estado" in r <==> form.estado == []
    ensures "logradouro" in r ==> r["logradouro"] == LogradouroRequired
    ensures "bairro" in r ==> r["bairro"] == BairroRequired
    ensures "cidade" in r ==> r["cidade"] == CidadeRequired
    ensures "estado" in r ==> r["estado"] == EstadoRequired
    ensures "wasteTypes" in r <==> selected == []
    ensures "operatingHours" in r <==> forall d :: !Get(w, d).isOpen
    ensures "wasteTypes" in r ==> r["wasteTypes"] == WasteTypesRequired
    ensures "operatingHours" in r ==> r["operatingHours"] == OpenDayRequired
  {
    var e := AddressErrors(form);
    var e6 := if |selected| == 0 then e["wasteTypes" := WasteTypesRequired] else e;
    if !AnyOpen(w) then e6["operatingHours" := OpenDayRequired] else e6
  }

  /** The error map `validateForm` stores. */
  function Errors(form: PointForm, selected: seq<string>, w: Week): (r: map<string, string>)
    ensures forall k :: k in r ==> k in FieldKeys || exists d :: k == TimeKey(d)
    ensures "cep" in r <==> |Digits(form.cep)| != CepDigits
    ensures "cep" in r ==> r["cep"] == (if form.cep == [] then CepRequired else CepLength)
    ensures "logradouro" in r <==> form.logradouro == []
    ensures "bairro" in r <==> form.bairro == []
    ensures "cidade" in r <==> form.cidade == []
    ensures "estado" in r <==> form.estado == []
    ensures "logradouro" in r ==> r["logradouro"] == LogradouroRequired
    ensures "bairro" in r ==> r["bairro"] == BairroRequired
    ensures "cidade" in r ==> r["cidade"] == CidadeRequired
    ensures "estado" in r ==> r["estado"] == EstadoRequired
    ensures "wasteTypes" in r <==> selected == []
    ensures "operatingHours" in r <==> forall d :: !Get(w, d).isOpen
    ensures "wasteTypes" in r ==> r["wasteTypes"] == WasteTypesRequired
    ensures "operatingHours" in r ==> r["operatingHours"] == OpenDayRequired
    ensures forall d :: TimeKey(d) in r <==> BadHours(w, d)
    ensures forall d :: TimeKey(d) in r ==> r[TimeKey(d)] == TimeOrder
  {
    RecordOrderIsEnumeration();
    TimeKeysDistinct();
    var fields := FieldErrors(form, selected, w);
    TimeErrors(w, RecordOrder, fields)
  }

  /** `validateForm`: true exactly when the error map is empty. */
  function ValidateForm(form: PointForm, selected: seq<string>, w: Week): (ok: bool)
    ensures ok <==>
              && |Digits(form.cep)| == CepDigits
              && form.logradouro != [] && form.bairro != [] && form.cidade != [] && form.estado != []
              && selected != []
              && (exists d :: Get(w, d).isOpen)
              && (forall d :: Get(w, d).isOpen ==> Below(Get(w, d).openTime, Get(w, d).closeTime))
  {
    var errors := Errors(form, selected, w);
    assert |Digits(form.cep)| != CepDigits ==> "cep" in errors;
    assert form.logradouro == [] ==> "logradouro" in errors;
    assert form.bairro == [] ==> "bairro" in errors;
    assert form.cidade == [] ==> "cidade" in errors;
    assert form.estado == [] ==> "estado" in errors;
    assert selected == [] ==> "wasteTypes" in errors;
    assert (forall d :: !Get(w, d).isOpen) ==> "operatingHours" in errors;
    assert forall d :: Get(w, d).isOpen && !Below(Get(w, d).openTime, Get(w, d).closeTime) ==>
             TimeKey(d) in errors;
    |errors| == 0
  }

  /**
   For hours entered through time inputs the string check is the
   chronological one: an open day passes exactly when it opens strictly
   before it closes, so equal times are rejected, and a closed day never
   fails it.
   */
  lemma HoursCheckIsChronological(w: Week, d: Day)
    requires IsClockTime(Get(w, d).openTime) && IsClockTime(Get(w, d).closeTime)
    ensures BadHours(w, d) <==>
              Get(w, d).isOpen && Minutes(Get(w, d).openTime) >= Minutes(Get(w, d).closeTime)
  {
    ClockOrderIsTimeOrder(Get(w, d).openTime, Get(w, d).closeTime);
  }

  /**
   The check compares strings, and the empty string is below every other:
   an open day whose opening time was cleared passes it.
   */
  lemma ClearedOpeningTimePasses(w: Week, d: Day)
    requires Get(w, d).isOpen && Get(w, d).openTime == [] && Get(w, d).closeTime != []
    ensures !BadHours(w, d)
  {
  }

  /** The simulated ids of the submission. */
  const SimulatedUserId := 1
  const SimulatedTipoColetaId := 5

  datatype CollectionPointPayload = CollectionPointPayload(
    userId: int, cep: string, logradouro: string, bairro: string,
    cidade: string, estado: string, status: string)

  datatype WasteTypePayload = WasteTypePayload(tipoColetaId: int, tipoDescarte: string)

  datatype HoursPayload = HoursPayload(dayOfWeek: string, openTime: string, closeTime: string, isOpen: bool)

  /** `collectionPointPayload`: the CEP is sent without its mask. */
  function PointPayload(form: PointForm): (r: CollectionPointPayload)
    ensures AllDigits(r.cep) && r.cep == Digits(form.cep)
    ensures r.userId == SimulatedUserId
    ensures r.logradouro == form.logradouro && r.bairro == form.bairro
    ensures r.cidade == form.cidade && r.estado == form.estado && r.status == form.status
  {
    CollectionPointPayload(
      SimulatedUserId, Digits(form.cep), form.logradouro, form.bairro, form.cidade, form.estado, form.status)
  }

  /** `wasteTypesPayload`: one entry per selected id, in selection order. */
  function WasteTypesPayload(selected: seq<string>): (r: seq<WasteTypePayload>)
    ensures |r| == |selected|
    ensures forall i :: 0 <= i < |r| ==> r[i].tipoDescarte == selected[i] && r[i].tipoColetaId == SimulatedTipoColetaId
  {
    seq(|selected|, i requires 0 <= i < |selected| => WasteTypePayload(SimulatedTipoColetaId, selected[i]))
  }

  /** `operatingHoursPayload`: the open days, monday first, with their times as entered. */
  function OperatingHoursPayload(w: Week): (r: seq<HoursPayload>)
    ensures |r| == |OpenDays(w)|
    ensures forall i :: 0 <= i < |r| ==>
              && DayOfKey(r[i].dayOfWeek) == Some(OpenDays(w)[i])
              && r[i].openTime == Get(w, OpenDays(w)[i]).openTime
              && r[i].closeTime == Get(w, OpenDays(w)[i]).closeTime
              && r[i].isOpen
  {
    var open := OpenDays(w);
    seq(|open|, i requires 0 <= i < |open| =>
      DayTablesInvert(open[i]);
      HoursPayload(DayKey(open[i]), Get(w, open[i]).openTime, Get(w, open[i]).closeTime, Get(w, open[i]).isOpen))
  }

  /**
   What a validated form submits: the eight CEP digits typed into the
   masked field, and only hour entries that open before they close.
   */
  lemma PayloadsOfValidForm(form: PointForm, typed: string, selected: seq<string>, w: Week)
    requires form.cep == FormatCep(typed)
    requires ValidateForm(form, selected, w)
    ensures PointPayload(form).cep == Digits(typed)
    ensures |PointPayload(form).cep| == CepDigits
    ensures |WasteTypesPayload(selected)| > 0
    ensures |OperatingHoursPayload(w)| > 0
    ensures forall i :: 0 <= i < |OperatingHoursPayload(w)| ==>
              Below(OperatingHoursPayload(w)[i].openTime, OperatingHoursPayload(w)[i].closeTime)
  {
    FormatCepKeepsDigits(typed);
    forall i | 0 <= i < |OperatingHoursPayload(w)|
      ensures Below(OperatingHoursPayload(w)[i].openTime, OperatingHoursPayload(w)[i].closeTime)
    {
      assert OpenDays(w)[i] in OpenDays(w);
    }
  }
}
