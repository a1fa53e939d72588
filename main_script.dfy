/**
 * The profile selection of main.py: the list of profile names offered in the
 * select box, the first-match lookup of the selected name, and the scraper
 * section that runs extraction with the profile found.
 */
module MainScript {
  import opened Wrappers
  import opened Scrapper

  /** Line 45: `[perfil['Nombre'] for perfil in perfiles]`. */
  function NombresPerfiles(perfiles: seq<Profile>): (nombres: seq<string>)
    ensures |nombres| == |perfiles|
    ensures forall i :: 0 <= i < |perfiles| ==> nombres[i] == perfiles[i].nombre
  {
    if perfiles == [] then [] else [perfiles[0].nombre] + NombresPerfiles(perfiles[1..])
  }

  /** Line 49: the first profile whose name is `seleccionado`, else `None`. */
  function FindPerfil(perfiles: seq<Profile>, seleccionado: string): Option<Profile> {
    if perfiles == [] then None
    else if perfiles[0].nombre == seleccionado then Some(perfiles[0])
    else FindPerfil(perfiles[1..], seleccionado)
  }

  /**
   * The lookup returns `None` exactly when the name is not offered; otherwise
   * it returns the first profile, in list order, carrying that name.
   */
  lemma FindPerfilSpec(perfiles: seq<Profile>, seleccionado: string)
    ensures FindPerfil(perfiles, seleccionado).None? <==> seleccionado !in NombresPerfiles(perfiles)
    ensures FindPerfil(perfiles, seleccionado).Some? ==>
              exists i :: 0 <= i < |perfiles| && perfiles[i] == FindPerfil(perfiles, seleccionado).value
                          && perfiles[i].nombre == seleccionado
                          && forall j :: 0 <= j < i ==> perfiles[j].nombre != seleccionado
  {
    FindPerfilNone(perfiles, seleccionado);
    var nombres := NombresPerfiles(perfiles);
    if seleccionado in nombres {
      var k :| 0 <= k < |nombres| && nombres[k] == seleccionado;
      assert perfiles[k].nombre == seleccionado;
    }
    if FindPerfil(perfiles, seleccionado).Some? {
      var i := FindPerfilIndex(perfiles, seleccionado);
    }
  }

  /** The lookup fails exactly when no profile carries the name. */
  lemma {:induction false} FindPerfilNone(perfiles: seq<Profile>, seleccionado: string)
    ensures FindPerfil(perfiles, seleccionado).None? <==> forall i :: 0 <= i < |perfiles| ==> perfiles[i].nombre != seleccionado
  {
    if perfiles != [] && perfiles[0].nombre != seleccionado {
      FindPerfilNone(perfiles[1..], seleccionado);
      assert forall i :: 1 <= i < |perfiles| ==> perfiles[i] == perfiles[1..][i - 1];
    }
  }

  /** A successful lookup returns the first profile carrying the name. */
  lemma {:induction false} FindPerfilIndex(perfiles: seq<Profile>, seleccionado: string) returns (k: nat)
    requires FindPerfil(perfiles, seleccionado).Some?
    ensures k < |perfiles| && perfiles[k] == FindPerfil(perfiles, seleccionado).value
    ensures perfiles[k].nombre == seleccionado
    ensures forall j :: 0 <= j < k ==> perfiles[j].nombre != seleccionado
  {
    if perfiles[0].nombre == seleccionado {
      k := 0;
    } else {
      var k' := FindPerfilIndex(perfiles[1..], seleccionado);
      k := k' + 1;
      assert perfiles[k] == perfiles[1..][k'];
      forall j | 0 < j < k
        ensures perfiles[j].nombre != seleccionado
      {
        assert perfiles[j] == perfiles[1..][j - 1];
      }
    }
  }

  /** Lines 45 to 49: every name the select box offers is found by the lookup. */
  lemma OfferedNamesFound(perfiles: seq<Profile>, k: nat)
    requires k < |perfiles|
    ensures FindPerfil(perfiles, NombresPerfiles(perfiles)[k]).Some?
    ensures FindPerfil(perfiles, NombresPerfiles(perfiles)[k]).value.nombre == perfiles[k].nombre
  {
    FindPerfilSpec(perfiles, NombresPerfiles(perfiles)[k]);
  }

  predicate DistinctNombres(perfiles: seq<Profile>) {
    forall i, j :: 0 <= i < j < |perfiles| ==> perfiles[i].nombre != perfiles[j].nombre
  }

  /** With distinct names the lookup is unambiguous: a profile's own name finds that profile. */
  lemma UniqueLookup(perfiles: seq<Profile>, k: nat)
    requires DistinctNombres(perfiles) && k < |perfiles|
    ensures FindPerfil(perfiles, perfiles[k].nombre) == Some(perfiles[k])
  {
    FindPerfilSpec(perfiles, perfiles[k].nombre);
    var i :| 0 <= i < |perfiles| && perfiles[i] == FindPerfil(perfiles, perfiles[k].nombre).value
             && perfiles[i].nombre == perfiles[k].nombre
             && forall j :: 0 <= j < i ==> perfiles[j].nombre != perfiles[k].nombre;
  }

  /** The registry built by `Scrapper.__init__`. */
  const Registry: seq<Profile> := [PerfilPcComp, PerfilCoolMod]

  /**
   * The built-in names are distinct, the select box offers "PcComp" then
   * "CoolMod", and each finds its own profile; no other name finds one.
   */
  lemma RegistryLookup(seleccionado: string)
    ensures DistinctNombres(Registry)
    ensures NombresPerfiles(Registry) == ["PcComp", "CoolMod"]
    ensures FindPerfil(Registry, "PcComp") == Some(PerfilPcComp)
    ensures FindPerfil(Registry, "CoolMod") == Some(PerfilCoolMod)
    ensures seleccionado != "PcComp" && seleccionado != "CoolMod" ==> FindPerfil(Registry, seleccionado) == None
  {
    assert PerfilPcComp.nombre[0] != PerfilCoolMod.nombre[0];
    assert NombresPerfiles(Registry) == [PerfilPcComp.nombre] + NombresPerfiles(Registry[1..]);
    UniqueLookup(Registry, 0);
    UniqueLookup(Registry, 1);
    FindPerfilSpec(Registry, seleccionado);
  }

  /**
   * Lines 43 to 51: build the scraper, offer its profile names, look up the
   * selected one and run extraction on the upload with the profile found.
   * A name taken from the offered list never leads to the missing-profile error.
   */
  method ScrapperSection(seleccionado: string, file: Option<Upload>)
    returns (nombres: seq<string>, perfil: Option<Profile>, datos: Datos, reported: Option<Error>)
    ensures nombres == ["PcComp", "CoolMod"]
    ensures perfil == FindPerfil(Registry, seleccionado)
    ensures seleccionado in nombres ==> perfil.Some? && perfil.value.nombre == seleccionado
    ensures (datos, reported) == Scraped(perfil, file)
    ensures seleccionado in nombres ==> reported != Some(NoProfile)
  {
    var scrap := new Scrapper();
    nombres := NombresPerfiles(scrap.perfiles);
    perfil := FindPerfil(scrap.perfiles, seleccionado);
    RegistryLookup(seleccionado);
    if perfil.Some? {
      ScrapedWithProfile(perfil.value, file);
    }
    datos, reported := scrap.ScrapInfoProduct(perfil, file);
  }
}
