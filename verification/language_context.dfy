/** The language context's translation lookup: four tables of interface strings, and `t`,
    which falls back to the key itself. */
module LanguageContext {

  /** The English table. */
  const English: map<string, string> := map[
      "nav.home" := "Home",
      "nav.ask" := "Ask Question",
      "nav.profile" := "Profile",
      "nav.settings" := "Settings",
      "nav.login" := "Login",
      "nav.logout" := "Logout",
      "common.loading" := "Loading...",
      "common.save" := "Save",
      "common.cancel" := "Cancel",
      "questions.title" := "All Questions",
      "questions.ask" := "Ask Question",
      "profile.questions" := "Questions",
      "profile.answers" := "Answers",
      "profile.activity" := "Activity",
      "settings.theme" := "Theme",
      "settings.language" := "Language",
      "settings.notifications" := "Notifications"
    ]

  /** The Spanish table. */
  const Spanish: map<string, string> := map[
      "nav.home" := "Inicio",
      "nav.ask" := "Hacer Pregunta",
      "nav.profile" := "Perfil",
      "nav.settings" := "Configuraci\U{00F3}n",
      "nav.login" := "Iniciar Sesi\U{00F3}n",
      "nav.logout" := "Cerrar Sesi\U{00F3}n",
      "common.loading" := "Cargando...",
      "common.save" := "Guardar",
      "common.cancel" := "Cancelar",
      "questions.title" := "Todas las Preguntas",
      "questions.ask" := "Hacer Pregunta",
      "profile.questions" := "Preguntas",
      "profile.answers" := "Respuestas",
      "profile.activity" := "Actividad",
      "settings.theme" := "Tema",
      "settings.language" := "Idioma",
      "settings.notifications" := "Notificaciones"
    ]

  /** The French table. */
  const French: map<string, string> := map[
      "nav.home" := "Accueil",
      "nav.ask" := "Poser une Question",
      "nav.profile" := "Profil",
      "nav.settings" := "Param\U{00E8}tres",
      "nav.login" := "Se Connecter",
      "nav.logout" := "Se D\U{00E9}connecter",
      "common.loading" := "Chargement...",
      "common.save" := "Sauvegarder",
      "common.cancel" := "Annuler",
      "questions.title" := "Toutes les Questions",
      "questions.ask" := "Poser une Question",
      "profile.questions" := "Questions",
      "profile.answers" := "R\U{00E9}ponses",
      "profile.activity" := "Activit\U{00E9}",
      "settings.theme" := "Th\U{00E8}me",
      "settings.language" := "Langue",
      "settings.notifications" := "Notifications"
    ]

  /** The German table. */
  const German: map<string, string> := map[
      "nav.home" := "Startseite",
      "nav.ask" := "Frage Stellen",
      "nav.profile" := "Profil",
      "nav.settings" := "Einstellungen",
      "nav.login" := "Anmelden",
      "nav.logout" := "Abmelden",
      "common.loading" := "Laden...",
      "common.save" := "Speichern",
      "common.cancel" := "Abbrechen",
      "questions.title" := "Alle Fragen",
      "questions.ask" := "Frage Stellen",
      "profile.questions" := "Fragen",
      "profile.answers" := "Antworten",
      "profile.activity" := "Aktivit\U{00E4}t",
      "settings.theme" := "Design",
      "settings.language" := "Sprache",
      "settings.notifications" := "Benachrichtigungen"
    ]

  /** `translations`, by language code. */
  const Translations: map<string, map<string, string>> :=
    map["en" := English, "es" := Spanish, "fr" := French, "de" := German]

  /** `t(key)` in `language`: the table entry when the language and the key are known and the
      entry is not empty (`translation || key`), and the key itself otherwise. */
  function T(language: string, key: string): (r: string)
    ensures language !in Translations ==> r == key
    ensures language in Translations && key !in Translations[language] ==> r == key
    ensures r == key || (language in Translations && key in Translations[language] && r == Translations[language][key])
  {
    if language in Translations && key in Translations[language] && Translations[language][key] != "" then
      Translations[language][key]
    else key
  }

  /** The four tables define the same keys. */
  lemma SameKeysEverywhere()
    ensures Translations.Keys == {"en", "es", "fr", "de"}
    ensures forall lang :: lang in Translations ==> Translations[lang].Keys == English.Keys
  {
    assert Spanish.Keys == English.Keys;
    assert French.Keys == English.Keys;
    assert German.Keys == English.Keys;
  }

  /** Every entry of `table` is a non-empty text different from its key. */
  ghost predicate Proper(table: map<string, string>)
  {
    forall key :: key in table ==> table[key] != "" && table[key] != key
  }

  lemma EnglishIsProper()
    ensures Proper(English)
  {
  }

  lemma SpanishIsProper()
    ensures Proper(Spanish)
  {
  }

  lemma FrenchIsProper()
    ensures Proper(French)
  {
  }

  lemma GermanIsProper()
    ensures Proper(German)
  {
  }

  /** No entry is empty and none equals its key. */
  lemma EntriesAreProper()
    ensures forall lang, key :: lang in Translations && key in Translations[lang] ==>
      Translations[lang][key] != "" && Translations[lang][key] != key
  {
    EnglishIsProper();
    SpanishIsProper();
    FrenchIsProper();
    GermanIsProper();
    forall lang | lang in Translations
      ensures Proper(Translations[lang])
    {
      assert lang == "en" || lang == "es" || lang == "fr" || lang == "de";
    }
  }

  /** A key of the English table never falls back in a supported language: `t` gives that
      language's entry, which is not the key. */
  lemma KnownKeyIsTranslated(language: string, key: string)
    requires language in Translations && key in English
    ensures key in Translations[language]
    ensures T(language, key) == Translations[language][key] && T(language, key) != key
  {
    SameKeysEverywhere();
    EntriesAreProper();
  }
}
