/** The three lifetime policies a registration can carry. */
module Registration {

  /** Controls when a container calls a provider:
      - Singleton: one instance, shared by the root container and every scope derived from it;
      - Scoped: one instance per container, a fresh one in every container made by `scoped()`;
      - Transient: a new instance on every resolve. */
  datatype RegistrationKind = Singleton | Scoped | Transient
}
