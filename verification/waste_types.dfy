/**
 The waste-type catalogue shared by the register and details pages, the
 checkbox handler `handleWasteTypeChange` that maintains the list of
 selected ids, and the details page's lookup of an id in the catalogue.
 */
module WasteTypes {
  import opened Wrappers

  datatype WasteType = WasteType(id: string, name: string, description: string)

  const Catalogue: seq<WasteType> := [
    WasteType("ELE", "Eletrônicos", "Computadores, celulares, tablets"),
    WasteType("PAP", "Papel", "Jornais, revistas, papelão"),
    WasteType("PLA", "Plástico", "Garrafas, embalagens, sacolas"),
    WasteType("VID", "Vidro", "Garrafas, potes, recipientes"),
    WasteType("MET", "Metal", "Latas, alumínio, ferro"),
    WasteType("BAT", "Baterias", "Pilhas e baterias em geral"),
    WasteType("TEX", "Têxteis", "Roupas, tecidos, calçados"),
    WasteType("ORG", "Orgânicos", "Restos de comida, cascas")
  ]

  const UnknownDescription := "Descrição não disponível"

  /** The eight ids are pairwise distinct and every name is non-empty. */
  lemma CatalogueWellFormed()
    ensures |Catalogue| == 8
    ensures forall i, j :: 0 <= i < j < |Catalogue| ==> Catalogue[i].id != Catalogue[j].id
    ensures forall i :: 0 <= i < |Catalogue| ==> Catalogue[i].name != []
  {
  }

  /** `handleWasteTypeChange(id, true)`: the id is appended. */
  function Check(selected: seq<string>, id: string): (r: seq<string>)
    ensures |r| == |selected| + 1
    ensures r[..|selected|] == selected && r[|selected|] == id
  {
    selected + [id]
  }

  /** `handleWasteTypeChange(id, false)`: every occurrence of the id is dropped. */
  function Uncheck(selected: seq<string>, id: string): (r: seq<string>)
    ensures id !in r
    ensures forall x :: x != id ==> multiset(r)[x] == multiset(selected)[x]
    ensures |r| <= |selected|
  {
    if selected == [] then []
    else
      assert selected == [selected[0]] + selected[1..];
      if selected[0] == id then Uncheck(selected[1..], id)
      else [selected[0]] + Uncheck(selected[1..], id)
  }

  /**
   Unchecking works element by element: it distributes over concatenation
   and leaves a list without the id as it is, so the ids that remain keep
   their original order.
   */
  lemma {:induction false} UncheckKeepsOrder(a: seq<string>, b: seq<string>, id: string)
    ensures Uncheck(a + b, id) == Uncheck(a, id) + Uncheck(b, id)
    ensures id !in a ==> Uncheck(a, id) == a
  {
    if a == [] {
      assert a + b == b;
    } else {
      assert (a + b)[0] == a[0] && (a + b)[1..] == a[1..] + b;
      UncheckKeepsOrder(a[1..], b, id);
    }
  }

  /**
   `handleWasteTypeChange(id, checked)`: the id is selected afterwards exactly
   when the box is checked, and every other id keeps its count.
   */
  function ChangeWasteType(selected: seq<string>, id: string, checked: bool): (r: seq<string>)
    ensures id in r <==> checked
    ensures forall x :: x != id ==> multiset(r)[x] == multiset(selected)[x]
  {
    if checked then Check(selected, id) else Uncheck(selected, id)
  }

  /**
   Each checkbox reports the opposite of `selected.includes(id)`, so the
   selection never holds an id twice, and unchecking undoes checking.
   */
  lemma CheckboxKeepsSelectionDistinct(selected: seq<string>, id: string, checked: bool)
    requires forall i, j :: 0 <= i < j < |selected| ==> selected[i] != selected[j]
    requires checked <==> id !in selected
    ensures var r := ChangeWasteType(selected, id, checked);
            forall i, j :: 0 <= i < j < |r| ==> r[i] != r[j]
  {
    var r := ChangeWasteType(selected, id, checked);
    if !checked {
      forall i, j | 0 <= i < j < |r| ensures r[i] != r[j] {
        AtMostOnce(selected, r[i]);
        assert r[i] in r;
        assert r == r[..i] + [r[i]] + r[i + 1..j] + [r[j]] + r[j + 1..];
      }
    }
  }

  lemma {:induction false} AtMostOnce(s: seq<string>, x: string)
    requires forall i, j :: 0 <= i < j < |s| ==> s[i] != s[j]
    ensures multiset(s)[x] <= 1
  {
    if s != [] {
      AtMostOnce(s[1..], x);
      assert s == [s[0]] + s[1..];
      if s[0] == x {
        assert x !in s[1..];
      }
    }
  }

  lemma {:induction false} UncheckUndoesCheck(selected: seq<string>, id: string)
    requires id !in selected
    ensures Uncheck(Check(selected, id), id) == selected
  {
    if selected != [] {
      assert Check(selected, id)[1..] == Check(selected[1..], id);
      UncheckUndoesCheck(selected[1..], id);
    }
  }

  /** `wasteTypes.find((t) => t.id === id)`. */
  function Find(id: string): (r: Option<WasteType>)
    ensures r.Some? ==> r.value in Catalogue && r.value.id == id
    ensures r.None? ==> forall i :: 0 <= i < |Catalogue| ==> Catalogue[i].id != id
  {
    FindIn(Catalogue, id)
  }

  function FindIn(table: seq<WasteType>, id: string): (r: Option<WasteType>)
    ensures r.Some? ==> r.value in table && r.value.id == id
    ensures r.None? ==> forall i :: 0 <= i < |table| ==> table[i].id != id
  {
    if table == [] then None
    else if table[0].id == id then Some(table[0])
    else FindIn(table[1..], id)
  }

  /**
   One line of the accepted-materials list: `tipoInfo?.name || tipo` and
   `tipoInfo?.description || "Descrição não disponível"`.
   */
  function Describe(id: string): (r: (string, string))
    ensures forall i :: 0 <= i < |Catalogue| && Catalogue[i].id == id ==>
              r == (Catalogue[i].name, Catalogue[i].description)
    ensures (forall i :: 0 <= i < |Catalogue| ==> Catalogue[i].id != id) ==>
              r == (id, UnknownDescription)
  {
    CatalogueWellFormed();
    var info := Find(id);
    var name := if info.Some? && info.value.name != [] then info.value.name else id;
    var description :=
      if info.Some? && info.value.description != [] then info.value.description else UnknownDescription;
    (name, description)
  }
}
