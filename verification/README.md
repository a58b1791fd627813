# AI gateway operator: verified models

A Dafny 4.11 model of the two parts of the OpenDataHub AI gateway operator whose behaviour is
hardest to see from the code, with proofs about them. `dafny verify dfyconfig.toml` checks
everything.

**The chart compiler** (`cmd/chartgen`) turns Kubernetes resources into Helm templates. It works
on text: a resource is printed as block-style YAML, and passes over the lines replace fields,
blocks and sections by template actions. The model has resources as trees (`Yaml`), the passes
as loops over lines (`LinePasses`), a renderer for the template language the passes emit
(`HelmTemplate`), and the extraction of the values file (`ChartValues`, `ImageReference`). The
theorems say when the text passes mean what a rewriting of the tree would mean, what the
templates render to for every choice of values and release, exactly when an installation gives
the original Deployment back, that resources compiled by separate pipelines agree with each
other, and that grouping, file naming and file writing lose nothing and do not depend on the
order in which Go visits a map.

**Version identity and upgrades** (`api/components/v1alpha1`, `internal/controller/aigateway`).
Versions are parsed, brought into canonical form, stored in status as JSON, read again and
compared, and the comparison decides whether the upgrade runs. The theorems say that canonical
forms are a fixpoint, that the order is the one of section 11 of Semantic Versioning 2.0.0, and
what holds over every run of reconcile passes that may stop after any action, across restarts
with any versions.

## How to read the project

Each pass is a method with the loop of the source, proved equal to a function on the list of
lines; all laws are about those functions. Laws on strings (`PassLaws`, `SectionLaws`,
`NamespaceRoundTrip`, `ChartDocuments`) hold for every text. Laws on resources go through rows:
`TreeEdits` connects a rewriting of rows to a rewriting of trees once and for all, and
`FieldRefinement`, `Elision`, `SectionTrees` put the passes into that form. `ChartRendering`
renders whole templates tree by tree, and `DeploymentChart`, `BindingChart`, `AccountChart`,
`RenderedKeys` and `CrossResource` put the parts together. `ChartMeaning` says, with every kind
written out, what the chart holds for a resource of that kind, and what its files hold as a
whole. `Precedence`, `SemVerJson`, `StatusReport` and `Reconcile` build on `SemVer` in the same
way, and `VersionText` says which texts name a version without the steps of the parser.

What a pass emits and what the renderer understands are written down separately: the renderer
and the substitution have Helm's own spelling of every reference, and the theorems fail when a
pass writes anything else. In the same way the texts that name a version, the sources a report
lists, the container values are extracted from and the name of a template file are each stated
a second time, by what they mean.

Where a promise fails for some inputs, the model keeps the code and the theorem states exactly
when it holds:

- setting a field rewrites the tree exactly when no nested value stands under the field's key
  (`NestedNamespaceIsBroken` is an input where it does);
- replacing a resources block leaves a list under `resources:` in place (`ListIsNotElided`);
- a version survives the JSON round trip exactly when it is empty or accepted by the strict
  parser, which is what canonical means; "1.2" comes back as "1.2.0" (`ShortVersionIsCompleted`);
- the compiler and the digest script agree on the repository exactly when no `@` stands before
  the tag colon, apart from a lone colon (`DigestIsTakenForTag`, on a reference with a SHA-512
  digest, which the early exits of the script let through);
- two kinds share a template file exactly when they differ only in letter case or a spelled out
  `core`, as long as no part holds an underscore (`FilenamesCollide`);
- an image or a pull policy in the first row of a list item is not rewritten, but a pull policy
  behind it is dropped: an installed container runs the chart's image under all values exactly
  when `image` is not its first entry (`ContainerRunsAlways`), and a container with `image`,
  `imagePullPolicy` and `name` never comes back (`ImageFirstIsLost`);
- the service account pass replaces every name in the metadata that mentions the account's own,
  that of a label or an owner, too, and puts annotations behind each; only the account's own name
  is replaced exactly when no deeper name mentions it (`OwnNameAloneIsReplaced`,
  `LabelIsReplaced`), and the text is that of a template at all exactly when no such name holds a
  nested value (`NestedNameIsBroken`);
- annotations in the values are put behind those of the source and not merged with them, and so
  are pull secrets: the keys of the rendered mapping stay distinct exactly when the values or the
  source set none (`AnnotationsStayDistinct`, `PullSecretsStayDistinct`, `AnnotationsTwice`);
- a subject agrees with the installed service account under all values exactly when its name is
  not the first entry of its list item (`SubjectAgreesAlways`, `NameFirstStays`).

Modelling choices. A Go string is a sequence of characters. Scalars carry their printed form,
and `{}` and `[]` count as scalars, as they are printed inline. Entries keep the order in which
they are printed. Keys hold no colon and do not start with a dash, and every scalar is one
visible line. Rendering theorems ask that the resource holds no template action of its own.
Which plain scalars the YAML library reads as something other than a string is a parameter
(`Typing`). The parser and printer of blang/semver, `encoding/json` for strings, `sort.Slice`
and the reconciler framework are modelled from their public behaviour; of the sort only the
contract is used, and whether the framework stops a pass or stores a status is left open.

## Model

| member | source | states |
|---|---|---|
| LinePasses.ReplaceNamespace | cmd/chartgen/chart.go:253-265 | the loop that assigns to `lines[i]` computes the line rule for `namespace:` on every line |
| LinePasses.ReplaceReplicas | cmd/chartgen/chart.go:292-304 | the same for `replicas:` |
| LinePasses.ReplaceServiceAccountName | cmd/chartgen/chart.go:343-355 | the same for `serviceAccountName:` |
| LinePasses.ReplaceImageField | cmd/chartgen/chart.go:269-289 | an image line becomes two lines, an old pull policy none, all others stay |
| LinePasses.AddImagePullSecrets | cmd/chartgen/chart.go:359-378 | four guarded lines behind every service account name |
| LinePasses.ReplaceResources | cmd/chartgen/chart.go:307-339 | the nested loops that share one index terminate and compute the block elision |
| LinePasses.ReplaceServiceAccountMetadata | cmd/chartgen/chart.go:382-416 | the metadata section machine with the annotations block |
| LinePasses.ReplaceSubjectsNamespace | cmd/chartgen/chart.go:420-446 | the subjects section machine for namespaces |
| LinePasses.ReplaceSubjectsServiceAccount | cmd/chartgen/chart.go:450-476 | the subjects section machine for names |
| LinePasses.ReplaceCertificateDNSNames | cmd/chartgen/chart.go:193-224 | the DNS names section machine |
| LinePasses.ReplaceWebhookNamespace | cmd/chartgen/chart.go:480-504 | the namespace pass followed by the annotation pass |
| LinePasses.InjectConfigMapValues | cmd/chartgen/chart.go:508-529 | six lines behind every `data:` line |
| PassLaws.PassesFuse | cmd/chartgen/chart.go:94-118 | splitting and joining around every pass of a Deployment equals one split, the line passes in order, and one join, on every string |
| PassLaws.PassesCommute | cmd/chartgen/chart.go:253-355 | the field passes commute pairwise and with the resources pass, on every string |
| PassLaws.ElideCommutes | cmd/chartgen/chart.go:307-378 | the service account and pull secret passes may run before the block is replaced: they keep indents, blank lines and block openers |
| PassLaws.FieldPassIdempotent | cmd/chartgen/chart.go:253-265 | running a field pass again changes nothing, on every string |
| PassLaws.ResourcesPassIdempotent | cmd/chartgen/chart.go:307-339 | running the resources pass again changes nothing, on every string |
| SectionLaws.InsideMeaning | cmd/chartgen/chart.go:450-468 | the section flag is set exactly when an opening line stands above with no closing line from behind it to here |
| SectionLaws.SubjectsNameMeaning | cmd/chartgen/chart.go:450-476 | a line is rewritten exactly when it is an untemplated `name:` line behind a `subjects:` line with no line at the margin from there to here, list items excepted |
| SectionLaws.AccountPassMeaning | cmd/chartgen/chart.go:382-416 | on every list of lines: exactly the `name:` lines that mention the original name, behind a `metadata:` line with no line at the margin from there to here, become the name and the four annotation lines |
| SectionLaws.SubjectsNameIdempotent | cmd/chartgen/chart.go:450-476 | running the subjects pass again changes nothing, on every string |
| SectionLaws.SubjectsNamespaceIsIdentity | cmd/chartgen/chart.go:156-158 | after the namespace pass the subjects namespace pass changes nothing, on every string |
| Yaml.MarshalIsPrintText | cmd/chartgen/chart.go:242-249 | trimming the marshalled text removes the newline at its end and nothing else |
| TreeEdits.EditPrintEntries | cmd/chartgen/chart.go:253-378 | rewriting the printed rows gives the printout of the rewritten tree, for any row rewriting and editor that agree on single rows |
| TreeEdits.EditPrintExact | cmd/chartgen/chart.go:253-355 | for one-to-one rewritings the two agree exactly on the trees that fit |
| FieldRefinement.FieldPassRefinesTreeRewriting | cmd/chartgen/chart.go:253-265 | on every printed tree a field pass equals replacing every untemplated scalar under the key, list item heads excepted, exactly when no nested value stands under the key |
| FieldRefinement.NestedNamespaceIsBroken | cmd/chartgen/chart.go:258-261 | an input on which the namespace pass breaks a nested value |
| Elision.ElisionIsExact | cmd/chartgen/chart.go:307-339 | on every printed tree the skip loop removes exactly the subtree under `resources`, exactly when no list stands there |
| Elision.ListIsNotElided | cmd/chartgen/chart.go:324-331 | an input on which a list stays behind |
| HelmTemplate.HelpersMeaning | cmd/chartgen/helpers.go:34-66 | a given account name, full name or full reference wins; otherwise the release name is cut to 63 characters and loses one dash at its end, and the reference is repository and tag |
| EmittedRendering.EmittedExpressions | cmd/chartgen/chart.go:42-43 | the expressions the passes write are those Helm reads as the release namespace, the replicas, the account name and the image reference |
| EmittedRendering.RendersNamespace | cmd/chartgen/chart.go:253-265 | the namespace line renders to the namespace of the release, the reference spelled as Helm reads it |
| EmittedRendering.RendersReplicas | cmd/chartgen/chart.go:292-304 | the replicas line renders to the replicas of the values |
| EmittedRendering.RendersAccount | cmd/chartgen/chart.go:343-355 | under any key the account expression renders to the account name |
| EmittedRendering.RendersResources | cmd/chartgen/chart.go:314-317 | the emitted block renders to the resources of the values at its indent |
| EmittedRendering.RendersPullSecrets | cmd/chartgen/chart.go:368-373 | the guarded lines render to the pull secret, or to nothing without one |
| EmittedRendering.RendersAnnotations | cmd/chartgen/chart.go:400-407 | the guarded lines render to the annotations of the values, or to nothing without any |
| EmittedRendering.RendersImage | cmd/chartgen/chart.go:277-281 | the image line renders to the quoted image reference |
| ChartRendering.RenderFilled | cmd/chartgen/chart.go:94-118 | a template tree whose entries render one by one renders as a whole, white space trimming included |
| DeploymentChart.TransformDeployment | cmd/chartgen/chart.go:94-118 | the pipeline runs the six passes in order |
| DeploymentChart.TemplateFieldMeaning | cmd/chartgen/chart.go:100-115 | the five field passes together, entry by entry |
| DeploymentChart.DeploymentTextIsTemplate | cmd/chartgen/chart.go:94-118 | the text written for a Deployment is the printout of the template tree |
| DeploymentChart.DeploymentMeaning | cmd/chartgen/chart.go:94-118 | for all values and releases the template renders to the resource with its fields and resources mappings replaced and nothing else changed |
| DeploymentRoundTrip.DeploymentComesBack | cmd/chartgen/chart.go:94-118 | installing gives the Deployment back, quotes aside, exactly when it carries the installed values in every rewritten place |
| ImageReference.SplitImageTag | cmd/chartgen/values.go:168-182 | the backward scan with its early exits computes the split |
| ImageReference.SplitTagMeaning | cmd/chartgen/values.go:168-182 | on every reference the split is at the last colon behind the last slash, or there is none |
| ImageReference.ReferenceComesBack | cmd/chartgen/helpers.go:59-65 | recombining repository and tag gives the reference, with `:latest` when it had no tag |
| ImageReference.SameRepository | hack/scripts/resolve-image-ref.sh:44-49 | the script computes the same repository exactly when the reference has no `@` or a tag colon before its first `@`, and is not a lone colon |
| ImageReference.DigestIsTakenForTag | cmd/chartgen/values.go:168-182 | `r@sha512:0`, which meets neither early exit of the script, is split inside the digest, while the script takes the name before the `@` |
| ChartValues.InlineCollections | cmd/chartgen/values.go:143-152 | the empty collections are no strings, and only the empty mapping is a map |
| ChartValues.ExtractResources | cmd/chartgen/values.go:184-212 | the field by field extraction of limits and requests |
| ChartValues.ExtractDefaults | cmd/chartgen/values.go:130-166 | the defaults, written out, without a Deployment; else of the first Deployment and no other: image and quantities of the container at index 0 of `spec.template.spec.containers`, the image cut at its last colon behind the last slash, and the defaults where that container has none |
| ChartValues.DefaultsMeaning | cmd/chartgen/values.go:140-156 | the extracted values are exactly those found by place, and there is a result exactly when no CPU quantity is anything but a string |
| ChartValues.ResourcesComeBack | cmd/chartgen/values.go:184-212 | extracted and printed again the resources are the same exactly when they hold limits and requests, each empty or with nothing but CPU and memory strings |
| ChartValues.ContainerRunsAlways | cmd/chartgen/chart.go:269-289 | an installed container runs the image of the chart for all values and releases exactly when `image` is not its first entry |
| ChartValues.ImageFirstIsLost | cmd/chartgen/chart.go:276-285 | a compilable Deployment whose container starts with its image and has a pull policy differs from its installation under all values and releases |
| ChartValues.AccountIsRelease | cmd/chartgen/helpers.go:34-36 | the account takes the release name exactly when that has at most 63 characters and no dash at its end |
| ChartValues.ExtractedValuesRoundTrip | cmd/chartgen/values.go:130-212 | for every Deployment: installed with the values extracted from it, it comes back exactly when it carries them throughout |
| ChartValues.UniformDeploymentComesBack | cmd/chartgen/values.go:130-212 | a Deployment with one namespace, one tagged image, one account and one resources mapping comes back under its own name and namespace |
| SectionTrees.PassOnRoot | cmd/chartgen/chart.go:382-476 | on a printed resource a section pass rewrites the rows under one top level key and no others |
| BindingChart.TransformRoleBinding | cmd/chartgen/chart.go:150-161 | the pipeline runs the three passes in order |
| BindingChart.BindingTextIsTemplate | cmd/chartgen/chart.go:150-161 | the text written for a binding is the printout of the template tree: every subject's name is set, never that of the role or the metadata |
| BindingChart.BindingMeaning | cmd/chartgen/chart.go:150-161 | for all values and releases the template renders to the binding with namespaces and subjects' names replaced and nothing else changed |
| AccountChart.TransformServiceAccount | cmd/chartgen/chart.go:122-132 | the pipeline runs the two passes in order |
| AccountChart.AccountTextIsTemplate | cmd/chartgen/chart.go:122-132 | the text written for a service account is the printout of the template tree, every name in the metadata that mentions its own replaced, exactly when none of these names holds a nested value |
| AccountChart.NestedNameIsBroken | cmd/chartgen/chart.go:397-409 | an input on which the pass replaces the header of a nested value |
| AccountChart.OwnNameAloneIsReplaced | cmd/chartgen/chart.go:382-416 | the text is that of the template with the names on the first level of the metadata replaced and no others exactly when no deeper name mentions the account's own |
| AccountChart.LabelIsReplaced | cmd/chartgen/chart.go:397-409 | an account with its name as a label: five rows become thirteen, the label replaced and annotations put among the labels |
| AccountChart.AccountMeaning | cmd/chartgen/chart.go:122-132 | for all values and releases the template renders to the account with its namespaces set and every name in the metadata that mentions its own replaced by the installed name, each followed by the annotations of the values |
| AccountChart.OwnNameIsReplaced | cmd/chartgen/chart.go:397-398 | the account's own name matches the pass, plain or quoted |
| CrossResource.BindingNames | cmd/chartgen/chart.go:450-476 | in an installed binding all subjects' names are the account name and all other names are unchanged |
| CrossResource.AccountNames | cmd/chartgen/chart.go:382-416 | in an installed service account the names of the metadata that mention its own are the account name, and all other names are unchanged |
| CrossResource.LabelIsRenamed | cmd/chartgen/chart.go:397-398 | a label that repeats the account's name is installed as the account name |
| CrossResource.InstalledResourcesAgree | cmd/chartgen/chart.go:70-161 | for all values and releases, what is dispatched for the Deployment, the service account and a binding of either kind renders so that the pod template's service account, the service account's name and the name of every subject that does not start with it are one and the same, the other names of the service account are those of `AccountNames`, and every eligible namespace is that of the release |
| CrossResource.PodNamed | cmd/chartgen/chart.go:343-355 | the service account of an installed pod template is the account name |
| CrossResource.AccountNamed | cmd/chartgen/chart.go:382-416 | a service account, passed through under its own name, is installed under the account name |
| CrossResource.SubjectAgreesAlways | cmd/chartgen/chart.go:450-476 | a subject carries the account name for all values and releases exactly when its name is not the first entry of its list item |
| CrossResource.NameFirstStays | cmd/chartgen/chart.go:469-471 | a binding whose subject starts with its name keeps that name when installed, whatever the account is called |
| RenderedKeys.AnnotationsStayDistinct | cmd/chartgen/chart.go:382-416 | the keys of an installed account's metadata stay distinct exactly when the values or the source set no annotations |
| RenderedKeys.AnnotationsTwice | cmd/chartgen/chart.go:400-407 | an account with annotations of its own renders with the key twice whenever the values set annotations |
| RenderedKeys.PullSecretsStayDistinct | cmd/chartgen/chart.go:359-378 | the keys of an installed pod template stay distinct exactly when the values or the source set no pull secret |
| NamespaceRoundTrip.WebhookRoundTrip | cmd/chartgen/chart.go:480-504 | for template-free text, substituting a namespace into the webhook template gives the text back exactly when every rewritten line carries it, canonically spaced |
| NamespaceRoundTrip.WebhookIdempotent | cmd/chartgen/chart.go:480-504 | running the webhook passes again changes nothing, on every string |
| NamespaceRoundTrip.CertificateRoundTrip | cmd/chartgen/chart.go:178-224 | the same round trip for the DNS names of a certificate |
| ChartDocuments.TransformResource | cmd/chartgen/chart.go:70-90 | the pipeline is chosen by kind; the rows of `ChartMeaning` say what that means for each |
| ChartMeaning.DeploymentInstalls | cmd/chartgen/chart.go:75-76 | what the chart holds for an `apps/v1` Deployment renders to the Deployment with its fields and resources replaced |
| ChartMeaning.AccountInstalls | cmd/chartgen/chart.go:77-78 | what it holds for a `v1` ServiceAccount renders to the account installed under its own name |
| ChartMeaning.BindingInstalls | cmd/chartgen/chart.go:81-82 | what it holds for a RoleBinding or a ClusterRoleBinding renders to the binding with its subjects set |
| ChartMeaning.WebhookComesBack | cmd/chartgen/chart.go:83-84 | what it holds for both webhook configurations gives the resource back under a namespace exactly when every rewritten line carries that |
| ChartMeaning.CertificateComesBack | cmd/chartgen/chart.go:85-86 | the same for a Certificate |
| ChartMeaning.ConfigMapLine | cmd/chartgen/chart.go:79-80 | where every line of a ConfigMap stands in its template, and that six lines, written out, stand behind each `data:` line and none behind any other |
| ChartMeaning.OtherInstalls | cmd/chartgen/chart.go:87-89 | what it holds for any other kind renders to the resource with its namespaces set when its metadata name one, and to the resource itself when they do not |
| ChartMeaning.ChartHoldsItsResources | cmd/chartgen/chartgen.go:121-133 | grouped, rendered and written in any order, without clashing files, the file of every kind but namespaces cuts into exactly the texts of its resources, in the order of the input |
| ChartDocuments.RenderGroup | cmd/chartgen/chart.go:50-66 | the transformed documents joined by the separator |
| ChartDocuments.NoPassSeparates | cmd/chartgen/chart.go:70-90 | no transformation of any kind introduces a separator line |
| ChartDocuments.GroupCutsIntoDocuments | cmd/chartgen/chart.go:50-66 | cutting a group's text at its separator lines gives exactly the transformed documents |
| ChartDocuments.ConfigLinesKept | cmd/chartgen/chart.go:508-529 | every line of a ConfigMap is kept, in order |
| ChartFiles.GroupByGVK | cmd/chartgen/chartgen.go:177-192 | each group holds the inputs of its kind in their order, and there is no group for namespaces |
| ChartFiles.GroupsArePartition | cmd/chartgen/chartgen.go:177-192 | the groups together hold every other input exactly once |
| ChartFiles.OfKindPositions | cmd/chartgen/chartgen.go:177-192 | the members of a group are those of its kind, at increasing positions of the input and with none left out |
| ChartFiles.ChartedIsAllButNamespaces | cmd/chartgen/chartgen.go:183-186 | only `v1` Namespaces are left out of the chart |
| ChartFiles.FilenameMeaning | cmd/chartgen/chartgen.go:197-208 | the file name is group, version and kind in lower case, joined by underscores, `core` standing for the group without a name |
| ChartFiles.DeploymentFile | cmd/chartgen/chartgen.go:197-208 | Deployments are in `apps_v1_deployment.yaml` |
| ChartFiles.FilenamesAgree | cmd/chartgen/chartgen.go:197-208 | exactly when two kinds without underscores share a file |
| ChartFiles.FilenameInjective | cmd/chartgen/chartgen.go:194-208 | conventional kinds share a file exactly when they differ in the letter case of the kind alone |
| ChartFiles.FilenamesCollide | cmd/chartgen/chartgen.go:197-208 | an underscore or a group spelled `core` makes kinds share a file |
| ChartFiles.WriteTemplates | cmd/chartgen/chartgen.go:121-133 | the write loop writes every group once, in an order of its own choice |
| ChartFiles.DirectoryIsDetermined | cmd/chartgen/chartgen.go:121-133 | the template directory is the same for every order exactly when no two groups with the same file differ in content |
| ChartFiles.ConventionalKindsDoNotClash | cmd/chartgen/chartgen.go:194-208 | conventional kinds that differ beyond letter case never clash |
| SemVer.ParsePrintVersion | api/components/v1alpha1/semver.go:52-55 | printing and parsing a version is the identity |
| SemVer.ParseTolerantValid | api/components/v1alpha1/semver.go:52-55 | every parsed version has 64-bit numbers and well-formed identifiers (sections 2, 9 and 10 of Semantic Versioning 2.0.0) |
| SemVer.CanonicalFixpoint | api/components/v1alpha1/semver.go:33-40 | the canonical form re-parses to the same version and is returned unchanged |
| VersionText.ParseTolerantMeaning | api/components/v1alpha1/semver.go:52-55 | a text is read as a version exactly when, without white space at its ends and one leading `v`, it is one, two or three numbers with any zeros in front, of these values, missing ones 0, and identifiers only behind three (the third of which may be missing in front of them) |
| VersionText.NamesOne | api/components/v1alpha1/semver.go:52-55 | one text names at most one version |
| VersionText.NewSemVerMeaning | api/components/v1alpha1/semver.go:33-40 | `NewSemVer` answers with the plain spelling of the version a text names, and only then |
| VersionText.GTOfTexts | api/components/v1alpha1/semver.go:58-70 | `GT` holds exactly when both texts name versions and the second precedes the first |
| VersionText.JsonMeaning | api/components/v1alpha1/semver.go:72-95 | an accepted version is written as its plain spelling in quotes, and a quoted text is read as the version it names; `null` and the empty string leave the version unset |
| VersionText.LooseVersionIsRead | api/components/v1alpha1/semver.go:33-40 | a text with space around it, a leading `v`, a zero in front and two numbers, and what it is read as |
| VersionText.NewProcessMeaning | internal/controller/aigateway/aigateway.go:48-69 | a process starts exactly when its version names one, and is what it was built and configured as |
| VersionText.ReleaseMeaning | pkg/config/config.go:100-113 | the release is the version the platform version names, and 0.0.0 when it names none |
| SemVer.CanonicalIsStrict | api/components/v1alpha1/semver.go:33-40 | a string is its own canonical form exactly when the strict parser accepts it: no leading `v`, no space, no missing numbers, no leading zeros |
| SemVer.CanonicalFormDecides | api/components/v1alpha1/semver.go:33-40 | two strings have one canonical form exactly when they parse to one version |
| Precedence.CompareMeaning | api/components/v1alpha1/semver.go:58-70 | the comparison is the declarative precedence of section 11 of Semantic Versioning 2.0.0, build metadata ignored |
| Precedence.GTMeaning | api/components/v1alpha1/semver.go:58-70 | `GT` holds exactly when both strings parse and the second precedes the first |
| Precedence.NotGreaterIsTotalPreorder | api/components/v1alpha1/semver.go:58-70 | on strings that parse, "not greater" is a total preorder |
| Precedence.GTIsStrictOrder | api/components/v1alpha1/semver.go:58-70 | irreflexive, asymmetric and transitive on all strings |
| Precedence.GTOfCanonicalForms | api/components/v1alpha1/semver.go:33-70 | comparing canonical forms gives the same answer |
| SemVerJson.DecodeEncode | api/components/v1alpha1/semver.go:72-81 | every string survives the JSON string encoding |
| SemVerJson.EscapesWritten | api/components/v1alpha1/semver.go:72-74 | the escapes of section 7 of RFC 8259 as they are written, and those for HTML |
| SemVerJson.JsonRoundTrip | api/components/v1alpha1/semver.go:72-95 | unmarshalling a marshalled version gives it back exactly when it is empty or strictly a version |
| SemVerJson.ShortVersionIsCompleted | api/components/v1alpha1/semver.go:76-95 | "1.2" does not come back: it is read as "1.2.0" |
| SemVerJson.JsonStable | api/components/v1alpha1/semver.go:76-95 | what was unmarshalled once survives every further round trip |
| SemVerJson.SemVerCell.UnmarshalJSON | api/components/v1alpha1/semver.go:76-95 | the receiver is assigned only on success |
| StatusReport.NewProcessStarted | internal/controller/aigateway/aigateway.go:48-69 | a process that starts has a canonical version |
| StatusReport.Module.Initialize | internal/controller/aigateway/aigateway.go:72-92 | the manifests are appended only when managed, and stay appended when writing parameters fails |
| StatusReport.Module.ReportStatus | internal/controller/aigateway/aigateway.go:96-143 | the status reflects the process and the pass: versions, build source and platform of the process; every manifest listed as `kustomize`, every template as `template`, every chart as `helm`, as often as given and nothing else, in the order of path and then renderer |
| StatusReport.ReportMeaning | internal/controller/aigateway/aigateway.go:96-143 | the report is the one status with these properties |
| StatusReport.SortedUnique | internal/controller/aigateway/aigateway.go:132-138 | two sorted arrangements of the same sources are equal, so the unstable sort has one result |
| StatusReport.ReportIsCanonical | internal/controller/aigateway/aigateway.go:111-142 | reordering manifests, templates or charts does not show in the report |
| Reconcile.StatusRoundTrip | api/components/v1alpha1/semver.go:72-95 | storing and loading a status is the identity exactly when both versions are empty or strictly versions |
| Reconcile.PassMeaning | internal/controller/aigateway/aigateway_controller.go:86-101 | what a pass has done, for every place it can stop at |
| Reconcile.TraceLawful | internal/controller/aigateway/aigateway_controller.go:86-101 | every run keeps the status readable, and each step obeys the step laws and continues the one before |
| Reconcile.NoMissedUpgrade | internal/controller/aigateway/aigateway_upgrade.go:33-43 | in every run a recorded version only grows in a pass whose upgrade succeeded |
| Reconcile.OneCompletedUpgradePerProcess | internal/controller/aigateway/aigateway_upgrade.go:33-43 | after a pass that reported and was stored no later pass of the process calls the upgrade |
| Reconcile.UpgradeIsRetried | internal/controller/aigateway/aigateway_upgrade.go:33-43 | once an upgrade was called, every pass of the process that gets to the action calls it again until one completes, however many passes in between stop before it |
| Reconcile.UpgradeTrigger | internal/controller/aigateway/aigateway_upgrade.go:35-41 | the trigger is a recorded version that precedes the current one; an empty record never triggers it |
| Reconcile.RepeatedPassesChangeNothing | internal/controller/aigateway/aigateway.go:96-143 | after a stored completed pass, all later passes of the process over the same inputs in any order leave the world as it was, wherever they stop and whether or not they are stored |

## Left out

- AccountChart.AccountMeaning: asks that no nested value stands under a `name` of the metadata in which the account's name occurs; by `AccountTextIsTemplate` the text is no template tree otherwise.
- BindingChart.BindingMeaning: asks that `subjects:` opens a nested value at the top level only and that no subject's `name` holds one, as in every binding the API accepts.
- ChartValues.ExtractResources: a CPU quantity that is not a string has no result here; the source converts it or panics, depending on the number type the decoder produces, and prints it by a library that is not part of this model.
- DeploymentChart.DeploymentMeaning: asks for non-empty values under `resources`, for no list under a resources key and no nested value under a rewritten key; the refinement theorems say exactly what the passes do otherwise.
- ChartValues.ExtractDefaults: leaves out the replicas, and has no result for a container with a CPU quantity that is not a string, as `ExtractResources`.
- StatusReport.SortSlice: stands for the library's sort; its body is not the library's, and only its contract is used.
- ChartValues.PrintString: quoting adds the quotes and escapes nothing, so a value that itself holds a quote is printed differently by the YAML library.
- DeploymentRoundTrip.Unquote: takes the quotes off and reads no escapes; it is meant for scalars without quotes inside.
- SemVer.ParseTolerant: the tolerant parser of blang/semver v4 is modelled from its public behaviour (surrounding space, a leading `v`, leading zeros, missing minor and patch numbers, 64-bit numbers); its code is not part of this model.
- Yaml.Printable: scalars are one visible line, and keys hold no colon and do not start with a dash.
- ChartFiles.ToLower: lower-casing covers ASCII letters, which is what groups, versions and kinds consist of.
- The replicas in the values file: they depend on the number type the decoder produces and are given as a value.
- The other fields of the values file: leader election and the configuration map play no part in the templates modelled here.
- ConfigMap values overriding the data: the original keys stay in the output, so only that the lines are kept is claimed.
- Rendering of ConfigMap, webhook and certificate templates through the template language: `range` is not modelled; the round trips use plain substitution of the namespace.
- Multi-line and folded scalars, escapes in quoted scalars, anchors, comments and the decoding of multi-document input.
- Errors from marshalling and from writing files: files are written successfully.
- Template helpers other than the full name and the image reference, `Chart.yaml` and the JSON schema.
- Commands, standard input, file access, manager set-up and the configuration library; the platform version of a process is an input.
- The digest look-up of the shell script around the repository name, including its early exits.
