/** The interface strings of the desktop client in Spanish and English, and the current
    language that picks between them. */
module Translations {
  type Table = map<string, string>

  const Es: Table := map[
    "dashboard" := "Dashboard", "optimizations" := "Optimizaciones", "network_status" := "Estado de Red",
    "dns_failover" := "Failover DNS", "settings" := "Configuración", "about" := "Acerca de",
    "documentation" := "Documentación", "github" := "GitHub", "readme" := "README",
    "language" := "Idioma", "apply" := "Aplicar", "apply_all" := "Aplicar Todo",
    "refresh" := "Actualizar", "reset" := "Restablecer", "save" := "Guardar",
    "cancel" := "Cancelar", "enabled" := "Activado", "disabled" := "Desactivado",
    "active" := "Activo", "inactive" := "Inactivo", "loading" := "Cargando...",
    "no_data" := "Sin datos", "error" := "Error", "success" := "Éxito",
    "warning" := "Advertencia", "info" := "Información"]

  const En: Table := map[
    "dashboard" := "Dashboard", "optimizations" := "Optimizations", "network_status" := "Network Status",
    "dns_failover" := "DNS Failover", "settings" := "Settings", "about" := "About",
    "documentation" := "Documentation", "github" := "GitHub", "readme" := "README",
    "language" := "Language", "apply" := "Apply", "apply_all" := "Apply All",
    "refresh" := "Refresh", "reset" := "Reset", "save" := "Save",
    "cancel" := "Cancel", "enabled" := "Enabled", "disabled" := "Disabled",
    "active" := "Active", "inactive" := "Inactive", "loading" := "Loading...",
    "no_data" := "No data", "error" := "Error", "success" := "Success",
    "warning" := "Warning", "info" := "Info"]

  /** `LANG`: the tables by language code. */
  const Lang: map<string, Table> := map["es" := Es, "en" := En]

  /** The language a fresh session starts in. */
  const Initial: string := "es"

  /** The table of a language code: its own, or the Spanish one for a code without one. */
  function TableOf(lang: map<string, Table>, current: string, fallback: Table): (r: Table)
    ensures current in lang ==> r == lang[current]
    ensures current !in lang ==> r == fallback
  {
    if current in lang then lang[current] else fallback
  }

  /** `t`: the current language's text for a key, or the key itself when it has none. */
  function T(current: string, key: string): (r: string)
    ensures current in Lang && key in Lang[current] ==> r == Lang[current][key]
    ensures current !in Lang && key in Es ==> r == Es[key]
    ensures key !in TableOf(Lang, current, Es) ==> r == key
  {
    var table := TableOf(Lang, current, Es);
    if key in table then table[key] else key
  }

  /** `set_language`: only a code with a table is taken. */
  function SetLanguage(current: string, code: string): (r: string)
    ensures code in Lang ==> r == code
    ensures code !in Lang ==> r == current
  {
    if code in Lang then code else current
  }

  /** The language is always one with a table, so `t` never needs its fallback. */
  lemma LanguageStaysKnown(current: string, code: string)
    requires current in Lang
    ensures SetLanguage(current, code) in Lang
    ensures Initial in Lang
  {
  }

  /** Both tables translate the same keys, so switching language never turns a translated
      text back into its key. */
  lemma SameKeys()
    ensures Es.Keys == En.Keys
    ensures forall code :: code in Lang ==> Lang[code].Keys == Es.Keys
  {
  }

  /** A key with no text comes back unchanged in every language. */
  lemma UnknownKeyEchoed(current: string, key: string)
    requires key !in Es
    ensures T(current, key) == key
  {
    SameKeys();
  }
}
